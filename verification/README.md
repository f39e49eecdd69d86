# Deal store, limiter and feed: a verified model

This project models the part of the fishing price tracker that decides what gets published,
and proves what that part keeps over every run. `dafny verify dfyconfig.toml` checks all of it.

**The deal store.** `ingest_parsed_listing` takes one fetch of one listing. For each offer it
stores an observation and then does exactly one of three things: it rechecks an ACTIVE deal,
confirms a pending one, or detects a new one. The tables are fields of the class `Database`;
the writing functions are methods on it (`Stores`, `Pipeline`, `Enroller`, `GridStore`,
`Drainer`), and each is proved equal to a function on the tables (`DealRules`, `Steps`,
`EnrollRules`, `GridIngest`, `DrainRules`). `Steps.Run` runs any sequence of those steps, and
the invariants are proved of every run (`Lifecycle`, `Runs`, `TaskQueue`, `Catalog`, `Stranded`,
`Replay`, `UsedLane`, `Refreshes`, `GridSweeps`). What each decision depends on is said of the
stored rows and the fetch alone, and proved both ways: `Verdicts` (quality), `Sources`
(references), `Detections`, `Confirmations`, `DealSteps` (which of them happens), `Reports`,
`GridRows` and `Enrollment`. A grid page and an enrollment sweep are runs too (`GridPages`),
whatever other rows they hold. `Samples`, `TwoShops` and `PageSamples` are concrete runs.
`Stores`, `Steps` and `Runs` cover the writes of the store, the deadline and staleness sweeps,
the queue's status updates and the enroller.

**The limiter and the drain.** `RetailerLimiter` is a class; `LimiterHistory` and
`BreakerHistory` put its counters, its bounded outcome window and its pruned trip log beside
everything that ever happened and prove that they agree; `Admission` reads the verdict on a
request off that history. `DrainPace` and `DrainOrder` prove the safety of a whole drain and
show that a drain is one more run of the tables and one more history of the limiter, so all
earlier theorems apply to it. `DrainEvents` proves that it tells the limiter exactly what it
met, `DrainDeals` that every deal it opens is queued for confirmation, and `DrainScope` that it
writes for its own retailer only.

**Smaller pieces.** The reads behind references (`Queries`), the median reference
(`References`), percentages (`Percent`), the quality verdict (`Validate`), confirmation
(`Confirm`), meta-last promotion under crashes and concurrent readers (`Promotion`,
`PromotionHistory`), the enrollment cap and accounting (`EnrollRules`), the capture endpoint's
sliding window (`CaptureLimiter`) and the mod-10 check of GS1 General Specifications, section
7.9 (`Gtin`).

Time is an integer number of microseconds, money an integer number of cents and a percentage
an integer number of hundredths, rounded half to even over exact rationals. A row's id is its
index in its table. The partial unique indexes `deals_one_open_per_offer_rule` and
`crawl_tasks_dedupe_open` are part of the inserts. Fetching, robots.txt, URL safety, parsing
and catalog matching are arbitrary inputs.

Where the code and its own comments differ, the code is what is modelled:

- **USED lane.** `build_confirm_context` gives a USED deal a NEW reference, and check C8
  rejects a group mismatch. `UsedLane.UsedPublishedExactly` states exactly when a USED deal
  passes; while its own offer's condition group stays fixed it never does
  (`UsedLane.UsedNeverPublished`). `TwoShops.SecondFetchDecides` is one that fails on the group
  alone, and is published once its offer is stored as NEW.
- **Price basis.** A confirmation stores the raw price, a recheck compares the landed one. An
  unchanged deal survives its recheck exactly under `UsedLane.IdenticalRecheckExactly`;
  `UsedLane.ShippingExpiresAnUnchangedDeal` is an unchanged one that expires.
- **Upper bands.** 85 % and 95 % are looked at when a deal is confirmed, never on a refresh:
  `Refreshes.RefreshBandsExactly` says when a refreshed deal lies above them, and
  `Samples.AboveTheBand` is a run that ends ACTIVE at 91.90 %.
- **Reference kind.** A refresh may take its reference from elsewhere, but the stored kind stays
  that of the detection. `Refreshes.KindDescribesExactly` says when it still describes the stored
  reference, and `TwoShops.ClaimKeepsItsName` is a deal for which it does not.
- **Unreachable reasons.** `confirm_too_soon`, `not_from_product_page`, the identity
  mismatch and `below_floor` cannot be written by the pipeline (`Lifecycle.PipelineReasons`).
- **Confirmation deadline.** A candidate that is never confirmed is rejected by the deadline if
  and only if a QUEUED row for it is past its deadline (`Stranded.DeadlineExactly`). Once its row
  is closed in any way (`Stranded.ClosingStrands`), the deal stays CONFIRMING through every run
  that does not show its offer again (`Stranded.StrandedStays`); `Samples.StrandedReel` is a
  reachable one. HELD_REVIEW has no outgoing edge. Nothing is claimed about a deal eventually
  leaving either status.
- **Enroller.** A row that raises after its hit was inserted stays among the reported hit ids
  although the hit is rolled back; `EnrollRules.SweepAccounting` counts those rows.
- **Promotion.** The storage module says that a reader can never see mismatched files beside
  a valid `meta.json`. It can: `PromotionHistory.MixedExactly` says at which moments of any
  history, `PromotionHistory.MixedHappens` is such a moment, and
  `PromotionHistory.ReaderConsistent` is what does hold.

## Model

| member | source | states |
|---|---|---|
| `Percent.HalfOffExactly` | fpt/deals/detect.py:36-39 | the rounded percentage reaches 50.00 exactly when 20000 * price <= 10001 * reference: what rounding adds to "half off" |
| `Percent.UpperBandsExactly` | fpt/deals/confirm.py:162-172 | the rounded percentage is over 85.00 or over 95.00 exactly when the prices satisfy a linear inequality |
| `Percent.PctMonotone` | fpt/deals/detect.py:36-39 | a lower price or a higher reference never lowers the percentage |
| `References.MedianIgnoresOrder` | fpt/deals/references.py:35-53 | the median depends only on the multiset of daily prices |
| `References.MedianExactly` | fpt/deals/references.py:35-53 | the median is the middle price of any sorted listing or, of an even number, half the sum of the middle two with a half cent going to the even neighbour |
| `References.MedianSplits` | fpt/deals/references.py:35-53 | after rounding, at least half the days are at or below the median and at least half at or above it |
| `References.MedianRobust` | fpt/deals/references.py:35-53 | rewriting the price of fewer than half the days cannot move the median outside the range of the others |
| `References.OwnHistoryEvidence` | fpt/deals/references.py:35-53 | R1 exists if and only if there are 21 days, two of them 30 days apart |
| `References.OwnHistoryIgnoresOrder` | fpt/deals/references.py:35-53 | R1 does not depend on the order or pairing in which the days come |
| `References.ResolveCrossRetailerNew` | fpt/deals/references.py:70-81 | R2 is the cheapest candidate with a verifiable match, and is missing exactly when no candidate has one |
| `References.ResolveVerifiedReference` | fpt/deals/references.py:91-130 | the reference is the minimum of R1, R2 and R3, and is missing exactly when all are |
| `References.CrossRetailerExactly` | fpt/deals/references.py:70-81 | R2 counts only matches by barcode, by manufacturer number or by hand, and is at most the price of each |
| `References.VerifiedReferenceExactly` | fpt/deals/references.py:91-130 | the reference is one of R1, R2 and R3 under its own kind and identity, and none of them is lower |
| `Validate.VerdictMeaning` | fpt/pipeline/validate.py:79-198 | OK means a positive in-band price and no reason; REJECTED is exactly the unusable price; an out-of-band price is always SUSPECT and says so |
| `Validate.ReasonsExactly` | fpt/pipeline/validate.py:79-198 | a verdict names a reason if and only if that reason's guard fired |
| `Validate.UnchangedPriceIsQuiet` | fpt/pipeline/validate.py:79-198 | an unchanged price trips neither the move guard nor any of the guessed pack counts |
| `Validate.CollapsedExactly` | fpt/pipeline/validate.py:169-180 | the collapse guard fires exactly when less than half of the earlier variants are left; its second test adds nothing |
| `Verdicts.MoveExactly` | fpt/pipeline/validate.py:103-108 | a large move is one below 35 % or above 300 % of the last price, in exact integers |
| `Verdicts.PackExactly` | fpt/pipeline/validate.py:114-160 | a pack move is one to within 5 % of the recorded pack count or of one of nine usual ones, or of its inverse, in exact integers |
| `Verdicts.StoredVerdict` | fpt/store/pipeline.py:451-485 | what an ingest stores is the parse itself, OK if and only if it passes every guard against the newest OK price of its own offer, REJECTED if and only if it has no positive price, and flagged for a large move exactly when there was one |
| `Verdicts.RunKeepsMoves` | fpt/store/pipeline.py:451-485 | over every run, each OK observation is priced within 35 % and 300 % of its offer's newest OK one before it |
| `Detect.DeepEnoughIsCoherent` | fpt/deals/detect.py:42-72 | the two detection conditions give a percentage from 50.00 to 100.00 that is that of its prices |
| `Detect.LowestReferenceIsSafe` | fpt/deals/detect.py:42-72 | a NEW deal detected against the minimum reference is detected against every available one, at a discount no smaller |
| `Detections.DetectsExactly` | fpt/store/pipeline.py:141-221 | an observation opens a deal if and only if one of the three rules fires, said of the offer, its stored condition and the references that exist: availability, clearance, saving and percentage; the row is then pending, of that rule, at the observed prices |
| `Confirm.ConfirmExactly` | fpt/deals/confirm.py:88-172 | a confirmation publishes, holds or finds implausible exactly when C1 to C8 and C10 pass and the discount lies in the matching band |
| `Confirm.ReasonIsFirstFailure` | fpt/deals/confirm.py:88-172 | each reject reason names the first check that fails, all earlier ones having passed |
| `Confirmations.ConfirmsNewExactly` | fpt/store/deals.py:418-555 | what a second fetch does to a NEW-lane deal, said of the stored rows and the fetch: ten minutes, the same product on the detecting row, the fetch and the listing, a clean verdict, 2 %, the floor, the reference's scope, and then the price bands |
| `Confirmations.ConfirmsUsedExactly` | fpt/store/deals.py:473-483 | the same for a USED deal, against the cheapest current NEW offer; without one it is rejected |
| `Confirmations.VariantGuardExactly` | fpt/store/deals.py:459-461 | a pending deal that is old enough is rejected for its variant if and only if the stored detecting row, this fetch and the listing differ in variant or pack count |
| `Schema.FindOpenDeal` | fpt/store/deals.py:339-356 | finds an open deal of the offer and rule, or none exists |
| `Schema.FindReplay` | fpt/store/observations.py:90-106 | finds an observation of the offer with that non-empty snapshot, or none exists |
| `Schema.LastOkPrice` | fpt/store/pipeline.py:124-133 | is the price of a latest OK observation of the offer, or the offer has none |
| `Queries.DailyPricesExactly` | fpt/store/deals.py:113-128 | every day of the window with a qualifying observation appears exactly once, with the price of its latest one, and no other day appears |
| `Schema.RecentRow` | fpt/store/deals.py:131-212 | a row exists if and only if the offer qualifies for the variant and has a recent in-stock OK observation, and it carries the prices of the latest such one |
| `Queries.OneRowPerRetailer` | fpt/store/deals.py:131-212 | a retailer with a recent in-stock offer of the variant has exactly one row, its most recently observed offer |
| `Schema.CheapestRow` | fpt/store/deals.py:240-277 | the current-new reference is a row of least landed price |
| `Sources.OwnHistoryExactly` | fpt/store/deals.py:113-128 | R1 exists if and only if the offer was seen OK and off clearance on 21 of the last ninety days, two of them 30 days apart |
| `Sources.OwnHistoryValue` | fpt/store/deals.py:113-128 | R1 is the median of one price for each of those days: that of its newest such observation |
| `Sources.RowsExactly` | fpt/store/deals.py:168-212 | the rows looked up are exactly the newest in-stock OK answers of the retailers |
| `Sources.CurrentNewExactly` | fpt/store/deals.py:240-277 | the current-new reference exists if and only if another NEW offer of the variant was seen in stock within 48 hours, and is the cheapest, with shipping, of the retailers' newest answers |
| `Sources.CrossRetailerFrom` | fpt/store/deals.py:131-212 | R2 exists if and only if the offer is NEW with a known variant and pack count and some retailer's newest answer within seven days, of that pack count and first party, has a trusted match; it is the cheapest of those |
| `Sources.VerifiedExactly` | fpt/store/deals.py:311-336 | an offer's verified reference is the lower of its own R1 and R2, under its own kind and identity, and is missing exactly when both are |
| `Stores.GetOrCreateSeller` | fpt/store/listings.py:16-29 | the whole new state: one seller updated or added |
| `Stores.UpsertListingRow` | fpt/store/listings.py:32-98 | the whole new state: one listing merged or added, a variant link never replaced |
| `Stores.UpsertOfferRow` | fpt/store/listings.py:101-127 | the whole new state: one offer updated or added |
| `Stores.GetOrCreateCrawlTask` | fpt/store/observations.py:54-87 | the whole new state: a finished row per fetch key, once, and its id |
| `Stores.RecordObservation` | fpt/store/observations.py:117-186 | a duplicate answers with the id of the row already there; it and a violated CHECK write nothing; otherwise exactly one row is appended |
| `Stores.CreateCandidate` | fpt/store/deals.py:359-415 | the whole new state: a new row, or the open deal of that offer and rule and no write |
| `Stores.EnqueueConfirm` | fpt/store/deals.py:613-653 | the whole new state, and queued if and only if no open CONFIRM row has the deal's key |
| `Stores.ApplyConfirm` | fpt/store/deals.py:558-610 | the whole new state: the one deal row gets the verdict of the confirmation |
| `Stores.ExpireActiveDeal` | fpt/store/deals.py:790-794 | the whole new state: one deal row expired with its reason |
| `Stores.RefreshOrExpireActiveDeal` | fpt/store/deals.py:678-787 | the whole new state: the row is refreshed to the freshly resolved reference or expired, and the answer says which |
| `Stores.ExpireStale` | fpt/store/deals.py:797-828 | a deal stays ACTIVE if and only if its offer has a recent OK observation, no other row changes, and the count is that of the changed rows |
| `Stores.ExpireOverdue` | fpt/scheduler/queue.py:68-76 | the queue after the sweep, and the returned ids are exactly the deals with an overdue CONFIRM row, one for each such row |
| `Stores.RefuseDeals` | fpt/scheduler/queue.py:77-82 | exactly the named deals that are still pending are rejected for the missed deadline |
| `Stores.ExpireOverdueConfirmTasks` | fpt/scheduler/queue.py:62-83 | both updates together are one deadline step of a run, and the count is that of the overdue rows with a deal |
| `Pipeline.RunDetection` | fpt/store/pipeline.py:141-221 | the new deals and tasks and the reported action are those of the detection rule |
| `Pipeline.TryConfirm` | fpt/store/pipeline.py:224-272 | confirms the first awaiting deal in rule order and writes only its row, or changes nothing |
| `Pipeline.TryRecheckActive` | fpt/store/pipeline.py:275-308 | rechecks the first ACTIVE deal in rule order and writes only its row, or changes nothing |
| `Pipeline.IngestOffer` | fpt/store/pipeline.py:440-543 | one turn of the offer loop: the result and, unless a CHECK aborts it, the whole new state |
| `Pipeline.IngestOffers` | fpt/store/pipeline.py:440-545 | the loop over all offers with its reported offer ids, observations and deal actions |
| `Pipeline.IngestParsedListing` | fpt/store/pipeline.py:311-545 | the whole new state and outcome; no URL means no write, a violated CHECK leaves nothing behind |
| `Steps.IngestIsRun` | fpt/store/pipeline.py:311-545 | an ingest is a run of single steps, so what every step keeps an ingest keeps |
| `Lifecycle.ActionMeaning` | fpt/store/pipeline.py:494-543 | the reported action is exactly what happened: nothing, one row added, or one named row of this offer confirmed, refreshed or expired |
| `DealSteps.StepExactly` | fpt/store/pipeline.py:494-543 | an OK observation rechecks if its offer has an ACTIVE deal; otherwise a priced one confirms if a pending deal of another observation is ten minutes old; otherwise an OK one detects; anything else changes nothing |
| `DealSteps.RecheckTargetExactly` | fpt/store/pipeline.py:275-308 | the rechecked deal is the ACTIVE one of the offer that is first in rule order, and none means there is none |
| `DealSteps.ConfirmTargetExactly` | fpt/store/pipeline.py:239-256 | the confirmed deal is the first in rule order of those that are pending, old enough and detected by another observation, and none means there is none |
| `DealSteps.RecheckExactly` | fpt/store/deals.py:678-787 | an ACTIVE deal stays ACTIVE if and only if the offer can be bought, a positive reference exists, the price rose at most 2 % and is still half off; otherwise it expires for the first of these that fails |
| `DealSteps.ConfirmStores` | fpt/store/deals.py:558-610 | a confirmation stores the price of the second fetch, the reference resolved then, the percentage of these two and, if it publishes, the time; a rejection stores its reason and the observation, and nothing else |
| `DealSteps.DetectionExactly` | fpt/store/pipeline.py:199-221 | a detected deal is open under the reported id, and a CONFIRM row for it is open unless the caller confirms by itself |
| `DealSteps.StaleExactly` | fpt/store/deals.py:797-828 | a deal expires as not observed if and only if it is ACTIVE and all OK observations of its offer are too old |
| `DealSteps.TaskDeadlineExactly` | fpt/scheduler/queue.py:68-76 | a queue row expires if and only if it is a queued CONFIRM row of the retailer past its deadline |
| `Lifecycle.PipelineReasons` | fpt/store/pipeline.py:239-272 | a confirmation by the pipeline never rejects for the gap, the page type, the identity or the floor |
| `Lifecycle.DealStepKeeps` | fpt/store/pipeline.py:494-543 | one observation keeps the invariant, moves deals only along the allowed edges and touches at most one row |
| `Runs.ObserveKeeps` | fpt/store/pipeline.py:440-543 | the same for a whole offer turn, which appends at most one observation and, when it appends none, changes no deal and no queue row |
| `Runs.ApplyKeeps` | fpt/store/deals.py:339-415 | every write of the store, the sweeps, the queue and the enroller keeps the invariant and the edges |
| `Runs.RunKeeps` | fpt/store/deals.py:558-610 | over every run the invariant holds, REJECTED, EXPIRED and HELD_REVIEW rows never change again, ACTIVE rows end only as EXPIRED, and observations only grow |
| `Runs.ReachableDeals` | fpt/store/deals.py:558-610 | in every reachable state a published, held or expired deal has a second fetch at least ten minutes after the first, of the same variant and pack count; the detecting observation is OK and showed what its lane asks for (a buyable NEW offer, a clearance claim, a used offer in stock); the percentage is that of the prices and at least 50.00, the price is what the observation it was last taken from offered, the reference kind fits the lane, the dated columns fit the status, and rejections are one of the two kinds |
| `Runs.ReachableUniqueness` | fpt/store/deals.py:359-415 | in every reachable state there is at most one open deal per offer and rule, and no observation plays a role in two deals or two roles in one |
| `Runs.PriceDrift` | fpt/deals/confirm.py:129-132 | after n confirmations and refreshes the stored price is at most 1.02^n times what it was |
| `UsedLane.UsedPublishedExactly` | fpt/deals/confirm.py:156-160 | a USED deal passes confirmation if and only if its own offer is by then stored as NEW and all other checks pass |
| `UsedLane.UsedNeverPublished` | fpt/store/deals.py:473-483 | while one offer's condition group stays fixed, no run publishes, holds or expires a USED deal of that offer, whatever other offers do |
| `TwoShops.OnlyTheGroupDecides` | fpt/deals/confirm.py:156-160 | a concrete USED deal that passes every check but the group, and passes when the offer is NEW |
| `TwoShops.SecondFetchDecides` | fpt/store/pipeline.py:440-543 | the same as whole observations: shown as used again it is rejected, shown as NEW it is published |
| `UsedLane.IdenticalRecheckExactly` | fpt/store/pipeline.py:99-110 | an unchanged deal stays ACTIVE if and only if it is available and its shipping is unknown or within both margins |
| `UsedLane.ShippingExpiresAnUnchangedDeal` | fpt/store/pipeline.py:276-308 | a concrete unchanged deal with 5.99 dollars shipping expires as price recovered |
| `Refreshes.RefreshBandsExactly` | fpt/store/deals.py:768-786 | a refreshed deal that stays ACTIVE is over 85.00 or 95.00 exactly when its prices satisfy a linear inequality |
| `Samples.AboveTheBand` | fpt/store/deals.py:768-786 | a run from empty tables that ends ACTIVE at 91.90 % |
| `Refreshes.KindDescribesExactly` | fpt/store/deals.py:755-786 | after a refresh the stored kind is that of the stored reference if and only if no verified reference of another kind exists |
| `TwoShops.ClaimKeepsItsName` | fpt/store/deals.py:755-786 | a concrete CLAIMED deal refreshed from another shop's price under its old kind |
| `TaskQueue.RunKeepsTasks` | fpt/store/deals.py:613-653 | every run keeps one open row per dedupe key, and every deal's CONFIRM row has priority 10 and belongs to a stored observation of the deal's offer and retailer: ready ten minutes after it and due three hours after it |
| `TaskQueue.ReachableTasks` | fpt/scheduler/enroller.py:145-174 | in every reachable state there is one open ENROLL row per retailer and URL, one open CONFIRM row per deal, and one open row per key |
| `Stranded.DeadlineExactly` | fpt/scheduler/queue.py:62-83 | the deadline rejects a pending deal if and only if a QUEUED row for it is past its deadline, and otherwise leaves it as it is |
| `Stranded.ClosingStrands` | fpt/scheduler/queue.py:142-349 | closing a deal's CONFIRM row in any way leaves the deal as it is without a queued row |
| `Stranded.StrandedStays` | fpt/scheduler/queue.py:62-83 | a deal without a queued row stays as it is through every run that does not show its offer |
| `Samples.StrandedReel` | fpt/scheduler/queue.py:252-349 | a reachable deal stranded by a DONE row whose page did not show the offer |
| `TaskQueue.RunKeepsCap` | fpt/scheduler/enroller.py:117-142 | over every run the enabled URLs of a retailer stay within its cap |
| `Replay.RunKeepsKeys` | fpt/store/observations.py:143-186 | over every run rows keep their keys and observations only grow by appending |
| `Replay.ReplayIsNoOp` | fpt/store/observations.py:90-106 | at any later point of a run, ingesting the same fetch again changes no observation, deal or queue row, whatever its prices say |
| `Replay.LogMeans` | fpt/store/pipeline.py:440-545 | an ingest reports every offer in order with a stored observation of it, and rows that were there before as duplicates |
| `Reports.IngestReports` | fpt/store/pipeline.py:438-545 | an ingest reports its own listing and, turn by turn and in order, exactly what each offer did to the deals; a replay reports nothing, and an OK observation always reports something |
| `Catalog.RunKeepsCatalog` | fpt/store/listings.py:16-127 | over every run sellers, listings, offers, tracked URLs and fetch rows keep unique keys, offers stay linked within one retailer, a variant link and a URL are never replaced, a URL registered by hand never changes, and a closed queue row never reopens |
| `Catalog.TurnOpensOffer` | fpt/store/pipeline.py:440-448 | an offer seen for the first time gets one new row, sold by the seller it is shown with; any other turn changes at most the condition of its own row |
| `Catalog.IngestShows` | fpt/store/pipeline.py:398-446 | a completed ingest leaves its listing with the fetch's variant key and first pack count, linked as it was before or else to the fetch's variant, no other listing changed, the last offer of each key in the condition shown and the last seller of each key as the type shown |
| `GridSweeps.SweepIsTwoSteps` | fpt/scheduler/listing_ingest.py:109-217 | ingesting one good row is one listing step and one observation step and never aborts |
| `GridRows.SkuIsLastSegment` | fpt/scheduler/listing_ingest.py:87-95 | a row goes by its product code or, without one, by the last segment of its URL, whatever slashes follow it |
| `GridRows.OtherRowsIgnored` | fpt/scheduler/listing_ingest.py:98-106 | rows without one firm price and a claim leave no trace, and the eligible count is that of the others |
| `GridRows.OutcomesInOrder` | fpt/scheduler/listing_ingest.py:180-217 | the k-th outcome is that of ingesting the k-th firm row after those before it |
| `GridRows.RowRecorded` | fpt/scheduler/listing_ingest.py:109-153 | a row is stored under its listing's own grid offer as one new observation with the row's numbers, in stock, without shipping or pack count, and on clearance exactly on a clearance grid; or the observation of that page is there already |
| `GridRows.RowAborts` | fpt/scheduler/listing_ingest.py:180-217 | a row without a safe URL leaves no trace, and any other firm row aborts the page if and only if its claim is not positive and the page has not shown it before |
| `GridRows.PageQueuesNothing` | fpt/scheduler/listing_ingest.py:200-208 | a grid page queues nothing: its deals wait for the next page |
| `GridSweeps.NoVerifiedReference` | fpt/store/deals.py:113-212 | for a grid row neither R1 nor R2 ever exists |
| `GridSweeps.FirstSweep` | fpt/scheduler/listing_ingest.py:156-217 | the first sweep of a fresh row adds exactly one CONFIRMING deal at its price, claim and percentage |
| `GridSweeps.EarlySweep` | fpt/store/pipeline.py:239-272 | a sweep less than ten minutes later changes no deal row |
| `GridSweeps.ConfirmingSweep` | fpt/store/deals.py:498-515 | the first sweep at least ten minutes later makes it ACTIVE |
| `GridSweeps.ActiveSweep` | fpt/store/deals.py:755-787 | every later identical sweep keeps it ACTIVE with the same price, reference and percentage |
| `GridSweeps.ReplayedSweep` | fpt/store/pipeline.py:494-495 | a page seen before changes no deal row |
| `GridSweeps.OtherKeeps` | fpt/store/pipeline.py:311-545 | any other write that leaves the row's listing alone leaves its deal as it is |
| `GridSweeps.FreshIfUnknown` | fpt/store/listings.py:32-98 | in any reachable state a row without a listing is fresh |
| `GridPages.GridIsRun` | fpt/scheduler/listing_ingest.py:180-217 | a page that does not abort is a run of single steps |
| `GridPages.EnrollIsRun` | fpt/scheduler/enroller.py:223-292 | an enrollment sweep is a run of single steps |
| `GridPages.PagesKeep` | fpt/scheduler/listing_ingest.py:180-217 | the deal and queue invariants survive a page and an enrollment sweep |
| `GridPages.PageGoesThrough` | fpt/scheduler/listing_ingest.py:180-217 | a page whose eligible rows claim more than nothing does not abort |
| `GridPages.PageIsMoves` | fpt/scheduler/listing_ingest.py:180-217 | a page of any rows is one visit for each time it shows the row, and quiet steps of other listings |
| `GridPages.GridRowLifecycle` | fpt/scheduler/listing_ingest.py:156-217 | for any run of whole pages and other writes, the row has one deal from the first page that shows it, with unchanged numbers, ACTIVE if and only if a later new page showed it ten minutes or more after the first |
| `PageSamples.SampleRowPublished` | fpt/scheduler/listing_ingest.py:156-217 | the conditions of the row above can be met: a concrete row, on pages with another one, is published by its second page |
| `GridStore.IngestDiscoveredItems` | fpt/scheduler/listing_ingest.py:156-217 | the whole new state of a sweep, the eligible and ineligible counts and one outcome per eligible row; an aborted sweep leaves nothing |
| `EnrollRules.ItemKeepsCap` | fpt/scheduler/enroller.py:259-270 | one row adds at most one enabled URL and only below the cap |
| `EnrollRules.SweepKeepsCap` | fpt/scheduler/enroller.py:117-142 | a sweep that starts within the cap ends within it, re-enabled rows included |
| `EnrollRules.SweepAccounting` | fpt/scheduler/enroller.py:223-292 | every row is skipped, unsafe, capped or tracked, exactly one of them; hits recorded, hits reported and queued tasks are accounted for |
| `EnrollRules.QuietSweep` | fpt/scheduler/enroller.py:223-292 | when no row raises, hits = rows = unsafe + capped + tracked |
| `EnrollRules.SweepTasks` | fpt/scheduler/enroller.py:272-281 | what a sweep queues is for URLs outside the skip set, each under a key no open row has |
| `EnrollRules.SweepTaskOrigins` | fpt/scheduler/enroller.py:252-281 | every queued row comes from a grid row with a safe URL, at the priority its implied discount earns |
| `Enrollment.RowQueuesExactly` | fpt/scheduler/enroller.py:272-281 | a row queues its ENROLL row if and only if it is recorded, safe, below the cap, trackable, outside the skip set, and new or at 45 % off, and no row for its URL is open |
| `Enrollment.SweepQueues` | fpt/scheduler/enroller.py:223-292 | every row of a sweep that asks for a fetch when its turn comes has an open ENROLL row when the sweep ends |
| `Enrollment.RowTracksExactly` | fpt/scheduler/enroller.py:117-142 | an enrolled row's URL is tracked, enabled for another 120 days unless it never expires; no other row changes, and a row that is not enrolled tracks nothing |
| `Enrollment.RowHitExactly` | fpt/scheduler/enroller.py:226-271 | a recorded row leaves one hit with its own numbers, linked exactly when it is enrolled; only a row that raises leaves none |
| `Enrollment.EnabledExactly` | fpt/scheduler/enroller.py:112-114 | the counter that the cap compares with is the number of the retailer's enabled rows |
| `Enrollment.DisabledExactly` | fpt/scheduler/enroller.py:301-321 | a URL is disabled if and only if it is enabled, past its expiry and without a pending, active or held deal |
| `EnrollRules.FewerEnabled` | fpt/scheduler/enroller.py:301-321 | disabling rows never raises a retailer's count |
| `Enroller.GetOrCreateTrackedUrl` | fpt/scheduler/enroller.py:117-142 | the whole new state, the id and whether the row is new |
| `Enroller.EnqueueEnroll` | fpt/scheduler/enroller.py:145-174 | the whole new state, and one more row exactly when the answer is yes |
| `Enroller.EnrollRow` | fpt/scheduler/enroller.py:223-292 | the whole new state and counters of one savepoint |
| `Enroller.EnrollDiscoveryPage` | fpt/scheduler/enroller.py:177-298 | the whole new state and counters of a sweep, with the cap, the accounting and the skip set |
| `Enroller.ExpireStaleTrackedUrls` | fpt/scheduler/enroller.py:301-321 | the whole new state: exactly the expired rows without an open deal are disabled, and the count is that of the changed rows |
| `Limiter.RetailerLimiter.RollBuckets` | fpt/scheduler/limiter.py:79-85 | the whole new state of both tumbling buckets |
| `Limiter.RetailerLimiter.CanAdmit` | fpt/scheduler/limiter.py:87-114 | the verdict and the whole new state |
| `Limiter.RetailerLimiter.RecordRequest` | fpt/scheduler/limiter.py:121-126 | the whole new state |
| `Limiter.RetailerLimiter.RecordOutcome` | fpt/scheduler/limiter.py:128-159 | the whole new state, tripped or not |
| `LimiterHistory.RequestWindows` | fpt/scheduler/limiter.py:79-126 | for every call history under a forward clock, any window of an hour or a day holds at most twice its cap |
| `LimiterHistory.RequestSpacing` | fpt/scheduler/limiter.py:99-102 | consecutive requests are at least the minimum delay apart |
| `LimiterHistory.ReserveHolds` | fpt/scheduler/limiter.py:107-114 | in each day bucket the other kinds stay within the ceiling of their share, and CONFIRM and HOT are refused for the day only after using up the reserve or the day |
| `Admission.AdmitsExactly` | fpt/scheduler/limiter.py:87-114 | the verdict on a request in its order, read off everything that was sent and every trip |
| `Admission.BucketsExactly` | fpt/scheduler/limiter.py:79-85 | a bucket's counter is the number of requests inside its span of time |
| `Admission.BlockedExactly` | fpt/scheduler/limiter.py:134-140 | the block rate counts exactly the blocked outcomes of the window |
| `BreakerHistory.LogsAgree` | fpt/scheduler/limiter.py:134-159 | the outcome window is the last min_sample outcomes, the running count is the blocked suffix since the last trip, trips are a cooldown apart, the breaker is open until a cooldown after the last one, the pruned trip log keeps at any later instant what all trips would keep within 48 hours, and disabled means that some trip closes a 48-hour span holding the limit |
| `BreakerHistory.TripsExactly` | fpt/scheduler/limiter.py:144-152 | the breaker trips if and only if the full history says so |
| `BreakerHistory.PruneTwice` | fpt/scheduler/limiter.py:154-155 | pruning the trip log at one instant loses nothing that a later pruning would keep |
| `BreakerHistory.KeptExactly` | fpt/scheduler/limiter.py:154-157 | the pruned log holds k trips if and only if the k-th last of all trips is under 48 hours old |
| `BreakerHistory.DisabledIsFinal` | fpt/scheduler/limiter.py:94-95 | once disabled, whatever is called next, nothing is admitted and nothing is sent |
| `BreakerHistory.CoolingHolds` | fpt/scheduler/limiter.py:96-97 | no request ever goes out inside any trip's cooldown |
| `DrainRules.NextTask` | fpt/scheduler/queue.py:120-133 | picks a ready task that is minimal by priority and not_before, or none is ready |
| `Drainer.IngestPage` | fpt/scheduler/queue.py:320-338 | all listings of a page in order, stopping at the first that raises |
| `Drainer.Fetching` | fpt/scheduler/queue.py:189-353 | status, tables and limiter after each way a fetch can end |
| `Drainer.Take` | fpt/scheduler/queue.py:134-187 | one selected task: skipped over budget or by robots, the drain stopped, or fetched |
| `Drainer.DrainRetailerQueue` | fpt/scheduler/queue.py:91-356 | tables, limiter and report after a whole drain |
| `DrainPace.NeverStopsForDelay` | fpt/scheduler/queue.py:119-163 | entered with the minimum delay over, a drain never stops because it is not |
| `DrainPace.DrainPaced` | fpt/scheduler/queue.py:14-20 | after any limiter history, a drain's requests keep the minimum delay and the window bounds |
| `DrainPace.TakenMeans` | fpt/scheduler/queue.py:134-230 | a report of over budget, robots or done means just that, the drain stops on a refusal exactly when the limiter refuses for another reason, a request goes out only if admitted and allowed, and only a parsed page changes anything but the queue |
| `DrainEvents.TurnTells` | fpt/scheduler/queue.py:189-240 | a turn records a request exactly when it sends one, and an outcome exactly when a page comes back: blocked if and only if the page is a block |
| `DrainEvents.DrainTells` | fpt/scheduler/queue.py:119-353 | over a whole drain the requests and outcomes recorded are exactly those of the fetched tasks, in order and at their instants |
| `DrainEvents.DrainOutcomes` | fpt/scheduler/queue.py:233-240 | after a drain the breaker's outcome history is the one before followed by the outcome of every page that came back |
| `DrainEvents.DrainTimed` | fpt/scheduler/queue.py:211-231 | the drain's clock moves by the limiter's delay after each fetch and by nothing else |
| `DrainDeals.TurnQueuesDeals` | fpt/scheduler/queue.py:320-338 | every deal that a turn opens has a new queued CONFIRM row |
| `DrainScope.TurnScoped` | fpt/scheduler/queue.py:320-338 | whatever page a turn meets, it writes only listings, offers, observations and deals of its task's retailer, queues only under its category, and leaves tracked URLs and all other queue rows alone |
| `DrainOrder.IngestOnlyQueues` | fpt/scheduler/queue.py:320-325 | ingesting for a leased task changes no queue row and only adds QUEUED CONFIRM rows |
| `DrainOrder.DrainOrder` | fpt/scheduler/queue.py:119-353 | every selection was due and minimal by priority and time, none is taken twice, at most max_tasks are, a drain that was not stopped takes one each turn, an empty queue means that nothing is due, each report is the row's final status, nothing else changes, and no row is left LEASED |
| `DrainOrder.DrainIsRun` | fpt/scheduler/queue.py:91-356 | the tables after a drain are those of a run of steps |
| `DrainOrder.DrainKeepsTables` | fpt/scheduler/queue.py:91-356 | a drain keeps the deal and queue invariants and every finished deal, whatever the outside answers |
| `Promotion.OrderIsPermutation` | fpt/export/storage.py:42-45 | the reordered files are the same files |
| `Promotion.MetaIsLast` | fpt/export/storage.py:42-45 | meta.json comes after every other file |
| `Promotion.CutShowsWholeFiles` | fpt/export/storage.py:58-62 | a promotion cut at any byte shows its first files whole and nothing else new |
| `Promotion.LocalStorage.WriteAtomic` | fpt/export/storage.py:58-62 | the directory after the write and the replace |
| `Promotion.LocalStorage.Promote` | fpt/export/storage.py:77-80 | the directory after a whole promotion, byte for byte and as a reader sees it |
| `PromotionHistory.ReadersSeeReleases` | fpt/export/storage.py:48-62 | at every moment a reader sees exactly the files put in place so far, each whole |
| `PromotionHistory.HistoryKeeps` | fpt/export/storage.py:13-23 | after any sequence of cut promotions, every file of meta.json's generation is visible, from that generation or a later one |
| `PromotionHistory.ReaderConsistent` | fpt/export/storage.py:13-23 | a reader that reads meta.json first finds every file of its generation at any later moment, with content of that generation or a newer one |
| `PromotionHistory.MixedExactly` | fpt/export/storage.py:13-23 | at any moment of any history of cut promotions, latest/ is all of meta.json's generation if and only if no later promotion has replaced a file that generation has |
| `PromotionHistory.MixedHappens` | fpt/export/storage.py:13-23 | an old meta.json beside a newer file, after one cut promotion and before the next has replaced anything |
| `CaptureLimiter.RateLimiter.Allow` | fpt/capture/ratelimit.py:25-35 | the answer and the whole new state |
| `CaptureLimiter.AnswersAsFullCount` | fpt/capture/ratelimit.py:25-35 | the pruned deque answers as counting all accepted hits in the closed window would |
| `CaptureLimiter.WindowsBounded` | fpt/capture/ratelimit.py:25-35 | no closed window of that length holds more than max_requests accepted hits of a key |
| `Gtin.CheckGtin14` | fpt/core/gtin.py:15-31 | the loop decides the weighted mod-10 rule |
| `Gtin.ValidExactly` | fpt/core/gtin.py:15-31 | the check digit is right if and only if the whole weighted sum is a multiple of 10 |
| `Gtin.ValidByPosition` | fpt/core/gtin.py:15-31 | a code is valid if and only if it is fourteen digits that, the odd places counted three times, add up to a multiple of 10 |
| `Gtin.DigitsKept` | fpt/core/gtin.py:34-43 | a digit is kept in its place |
| `Gtin.OthersSkipped` | fpt/core/gtin.py:34-43 | a character that is no digit changes nothing, wherever it stands |
| `Gtin.PaddingKeepsCheck` | fpt/core/gtin.py:47-50 | zero padding keeps a code valid or invalid, at any length |
| `Gtin.OneDigitChanged` | fpt/core/gtin.py:15-31 | any single changed digit is detected |
| `Gtin.NeighboursSwapped` | fpt/core/gtin.py:15-31 | a swap of two different neighbours is missed if and only if they differ by 5 |
| `Gtin.NormalizesExactly` | fpt/core/gtin.py:34-50 | a string normalises if and only if its digits have a plausible length and pass the check unpadded |
| `Gtin.NormalizeTwice` | fpt/core/gtin.py:34-50 | normalising is idempotent |
| `Gtin.LengthsAgree` | fpt/core/gtin.py:44-50 | one code written at two plausible lengths has one normal form |
| `Gtin.NormalizeValues` | fpt/core/gtin.py:53-64 | the loop computes the list that the next row describes |
| `Gtin.FirstSeenOrder` | fpt/core/gtin.py:53-64 | the list has every valid code, once, in the order of first finding |

## Left out

- HTTP, DNS, robots.txt, URL safety, snapshots, page parsing and block detection: their answers are inputs (`Fetch`, `GridItem`, `World`).
- Catalog matching, brand aliases and variant keys: a fetch carries the variant, its key and the match status.
- The CLI, the capture server, the extension, the site, export queries, views and migrations.
- `S3Storage`: uploads through boto3; promotion is modelled for `LocalStorage`. `write_versioned` and `prune_versioned` do not touch `latest/`.
- Columns that no decision reads: currency, stock quantity, restock date, adapter version, claim kind, reference detail, titles, a queue row's attempts and timestamps, the observation's crawl task.
- Integer widths, `numeric(5, 2)` overflow outside `discovery_hits`, and floating-point error of ratios and percentages.
- An exception rolls back the transaction of a whole tick; the model rolls back to the start of the ingest, sweep or drain that raised.
- Ids are indexes; gaps that an aborted INSERT leaves in a sequence do not appear.
- Dedupe keys are structured values instead of strings, so two different keys never print alike.
- Ties that SQL leaves open: `NextTask` takes the oldest of equal tasks, of two equally recent observations the later row counts, of two equally recent offers the older one.
- `Listing.is_active` and `conflicts`: no modelled code writes them, so they stay what they are.
- Random jitter and the wall clock: a delay and a clock value are inputs; the lemmas assume only what `DelayOk` and a forward clock say.
- `block_rate_min_sample = 0` divides by zero at the first outcome; a policy is assumed to have at least one.
- `disabled_reason`, logging and YAML loading; thresholds are the configured constants.
- Digits are ASCII; the program's patterns also accept other Unicode digits.
- The lock of the capture limiter: each call is one atomic step. `reset`, which clears all buckets, is not modelled.
- `fpt/core/money.py` and `fpt/core/ids.py`: price strings and public ids; no property here depends on them.
- GridSweeps.OtherKeeps: does not cover writes to the same listing from a product page, because those legitimately change the deal.
- Promotion.CutShowsWholeFiles: assumes that no file of a feed is named like another's `.tmp` sibling, as the feed's names are.
- Drainer.DrainRetailerQueue: demands the foreign key from queue rows to deals, which `TaskQueue.TasksOk` keeps.
