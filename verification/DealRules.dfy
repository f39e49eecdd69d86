/** What each function of fpt/store/deals.py and the offer step of fpt/store/pipeline.py
    write, as functions on rows and tables. */
module DealRules {
  import opened Core
  import opened Percent
  import opened Validate
  import opened References
  import opened Detect
  import opened Confirm
  import opened Schema

  // ---------------------------------------------------------------- inputs of one ingest

  /** One fetch of one listing, with the answers of the parts that are not modelled: the
      persistable URL (H1), the catalog match and the variant key. */
  datatype Fetch = Fetch(
    retailerId: int, retailerSlug: string, sku: string, category: string, bands: Bands,
    page: PageType, kind: TaskKind, at: Time, dayEt: int, snapshotRef: string,
    persistedUrl: Option<string>, variantKey: string, variantId: int, matchStatus: MatchStatus,
    offers: seq<ParsedOffer>,
    ownsTask: bool,               // the caller passed no crawl_task_id
    skipConfirmTask: bool,
    clock: Clock)

  /** The listing row's pack count is its first offer's. */
  function ListingUnitCount(f: Fetch): Option<int> {
    if f.offers == [] then None else f.offers[0].unitCount
  }

  /** _landed_price_cents: (compare price, stored landed price). With known shipping both
      are the landed price. */
  function LandedPrice(offer: ParsedOffer): (Option<int>, Option<int>) {
    if offer.price.None? then (None, None)
    else if offer.shipping.Some? then
      var landed := offer.price.value + offer.shipping.value;
      (Some(landed), Some(landed))
    else (offer.price, None)
  }

  // ---------------------------------------------------------------- confirmation

  /** The freshly resolved reference of a NEW-lane deal: a verified one always wins; the
      retailer's own claim backs only the CLAIMED lane. */
  function NewLaneReference(verified: Option<VerifiedReference>, lane: Lane, claimed: Option<int>): Option<int> {
    if verified.Some? then Some(verified.value.cents)
    else if lane == ClaimedLane && Truthy(claimed) then claimed
    else None
  }

  function FreshReference(t: Tables, d: Deal, offer: ParsedOffer, clock: Clock): Option<int>
    requires d.offerId < |t.offers| && t.offers[d.offerId].listingId < |t.listings|
  {
    if d.lane == UsedLane then
      var current := ResolveCurrentNew(t, ListingOf(t, d.offerId).variantId, d.offerId, clock);
      if current.Some? then Some(current.value.landed) else None
    else NewLaneReference(ResolveVerifiedReferenceForOffer(t, d.offerId, clock), d.lane, offer.claimed)
  }

  /** The reference's own identity, for C8: (variant key, pack count, condition group). */
  function ReferenceIdentity(t: Tables, d: Deal, offer: ParsedOffer, clock: Clock,
                             offerKey: Option<string>, offerUnits: Option<int>)
    : (Option<string>, Option<int>, Option<ConditionGroup>)
    requires d.offerId < |t.offers| && t.offers[d.offerId].listingId < |t.listings|
  {
    if d.lane == UsedLane then
      var current := ResolveCurrentNew(t, ListingOf(t, d.offerId).variantId, d.offerId, clock);
      if current.Some? then (current.value.listing.variantKey, current.value.listing.unitCount, Some(GroupNew))
      else (None, None, None)
    else
      var verified := ResolveVerifiedReferenceForOffer(t, d.offerId, clock);
      if verified.Some? then
        if verified.value.kind == CrossRetailerNew then
          (verified.value.variantKey, verified.value.unitCount, Some(GroupNew))
        else (offerKey, offerUnits, Some(GroupNew))
      else if d.lane == ClaimedLane && Truthy(offer.claimed) then (offerKey, offerUnits, Some(GroupNew))
      else (None, None, None)
  }

  function Discount(price: int, reference: Option<int>): int {
    if reference.Some? && reference.value > 0 then Pct(price, reference.value) else 0
  }

  function OrElse<T>(a: Option<T>, b: Option<T>): Option<T> {
    if a.Some? then a else b
  }

  function FloorOf(f: Fetch): Option<int> {
    BandOf(f.bands, f.category).floor
  }

  /** build_confirm_context. The detected side comes from the detecting observation's row,
      the listing side from the stored listing; the offer's identity is one row on both sides. */
  function BuildConfirmContext(t: Tables, d: Deal, f: Fetch, offer: ParsedOffer, v: Verdict): ConfirmContext
    requires d.offerId < |t.offers| && t.offers[d.offerId].listingId < |t.listings|
    requires offer.price.Some?
  {
    var l := ListingOf(t, d.offerId);
    var detected := if d.detectedObs < |t.observations| then Some(t.observations[d.detectedObs]) else None;
    var identity := OfferIdentity(f.sku, offer.offerKey, offer.condition, offer.sellerKey);
    var offerKey := Some(f.variantKey);
    var offerUnits := OrElse(offer.unitCount, l.unitCount);
    var reference := FreshReference(t, d, offer, f.clock);
    var scope := ReferenceIdentity(t, d, offer, f.clock, offerKey, offerUnits);
    ConfirmContext(
      d.detectedAt, f.at, d.detectedVia, f.page,
      identity, identity,
      if detected.Some? then detected.value.variantKey else None, Some(f.variantKey), l.variantKey,
      if detected.Some? then detected.value.unitCount else None, offer.unitCount, l.unitCount,
      v.quality, v.reasons,
      d.price, offer.price.value,
      Discount(offer.price.value, reference),
      scope.0, scope.2, scope.1,
      offerKey, GroupOf(t.offers[d.offerId].condition), offerUnits,
      FloorOf(f),
      reference)
  }

  /** apply_confirm_result on one row. */
  function ApplyConfirmResult(d: Deal, obs: nat, result: ConfirmResult, c: ConfirmContext, now: Time): Deal {
    match result
    case ToRejected(why) => d.(status := Refused, confirmingObs := Some(obs), rejectReason := Some(why))
    case _ =>
      d.(status := if result == ToActive then Active else HeldReview,
         confirmingObs := Some(obs), lastConfirmedObs := Some(obs),
         held := result == ToHeldReview,
         price := c.confirmingPrice, discount := c.discount,
         reference := if c.reference.Some? then c.reference.value else d.reference,
         confirmedAt := if result == ToActive then Some(now) else d.confirmedAt)
  }

  // ---------------------------------------------------------------- recheck of an ACTIVE deal

  function ExpireDeal(d: Deal, why: ExpireReason, now: Time): Deal {
    d.(status := Expired, expiredAt := Some(now), expireReason := Some(why))
  }

  /** The price an ACTIVE deal is compared with. */
  function ComparePrice(rule: Rule, offer: ParsedOffer): int
    requires offer.price.Some?
  {
    var (item, landed) := LandedPrice(offer);
    if rule == UsedVsCurrentNew && landed.Some? then landed.value else item.value
  }

  /** refresh_or_expire_active_deal on one row, with the current reference already resolved. */
  function RecheckDeal(d: Deal, obs: nat, compare: int, landed: Option<int>, availability: Availability,
                       reference: Option<int>, now: Time): Deal
  {
    if availability != InStock && availability != StoreOnly then ExpireDeal(d, SoldOut, now)
    else if reference.None? || reference.value <= 0 then ExpireDeal(d, ReferenceLost, now)
    else
      var discount := Pct(compare, reference.value);
      if !WithinTolerance(compare, d.price) || discount < MIN_DISCOUNT then ExpireDeal(d, PriceRecovered, now)
      else d.(price := compare, landed := landed, discount := discount, reference := reference.value,
              lastConfirmedObs := Some(obs))
  }

  // ---------------------------------------------------------------- detection

  /** create_candidate_deal: the partial unique index turns a second open deal of the same
      offer and rule into the existing one. */
  function CreateCandidateDeal(deals: seq<Deal>, row: Deal): (seq<Deal>, nat) {
    var existing := FindOpenDeal(deals, row.offerId, row.rule);
    if existing.Some? then (deals, existing.value) else (deals + [row], |deals|)
  }

  /** enqueue_confirm_task: one open CONFIRM task per deal. */
  function EnqueueConfirmTask(tasks: seq<Task>, retailerId: int, dealId: nat, url: string, category: string,
                              detectedAt: Time): seq<Task> {
    if FindOpenTask(tasks, ConfirmKey(dealId)).Some? then tasks
    else tasks + [Task(retailerId, ConfirmTask, 10, url, category, Some(dealId), ConfirmKey(dealId),
                       detectedAt + MIN_CONFIRM_DELAY, Some(detectedAt + CONFIRM_DEADLINE), Queued)]
  }

  function NewDeal(o: nat, obs: nat, at: Time, c: Candidate, kind: ReferenceKind, claimed: Option<int>,
                   inflated: Option<bool>): Deal {
    Deal(o, c.rule, LaneOf(c.rule), Confirming, obs, None, None, ProductPage, c.price, None,
         kind, c.reference, claimed, inflated, c.discount, at, None, None, false, None, None)
  }

  /** _run_detection up to the INSERT: the row it would insert. */
  function DetectedDeal(t: Tables, f: Fetch, offer: ParsedOffer, o: nat, obs: nat): Option<Deal>
    requires o < |t.offers| && t.offers[o].listingId < |t.listings|
    requires offer.price.Some?
  {
    if GroupOf(t.offers[o].condition) == GroupNew then
      var verified := ResolveVerifiedReferenceForOffer(t, o, f.clock);
      var cents := if verified.Some? then Some(verified.value.cents) else None;
      var inflated := ClaimedInflated(offer.claimed, cents);
      var fromVerified := DetectDeepDiscountNew(offer.condition, offer.availability, offer.price.value, cents);
      if fromVerified.Some? then
        Some(NewDeal(o, obs, f.at, fromVerified.value, verified.value.kind, offer.claimed, inflated))
      else
        var fromClaim :=
          DetectDeepDiscountClaimed(offer.condition, offer.price.value, offer.claimed, offer.onClearance,
                                    verified.Some?);
        if fromClaim.None? then None
        else Some(NewDeal(o, obs, f.at, fromClaim.value, RetailerClaimed, offer.claimed, inflated))
    else
      var current := ResolveCurrentNew(t, ListingOf(t, o).variantId, o, f.clock);
      var found := DetectUsedVsCurrentNew(offer.condition, offer.availability, LandedPrice(offer).0.value,
                                          if current.Some? then Some(current.value.landed) else None);
      if found.Some? then Some(NewDeal(o, obs, f.at, found.value, CurrentNew, None, None)) else None
  }

  // ---------------------------------------------------------------- which deal an observation touches

  const RULES: seq<Rule> := [DeepDiscountNew, DeepDiscountClaimed, UsedVsCurrentNew]

  /** The first rule, in order, whose open deal of this offer is ACTIVE. */
  function RecheckTarget(deals: seq<Deal>, o: nat, rules: seq<Rule>): (r: Option<nat>)
    ensures r.Some? ==> r.value < |deals| && deals[r.value].offerId == o && deals[r.value].status == Active
  {
    if rules == [] then None else
      var i := FindOpenDeal(deals, o, rules[0]);
      if i.Some? && deals[i.value].status == Active then i else RecheckTarget(deals, o, rules[1..])
  }

  predicate AwaitsConfirmation(d: Deal, obs: nat, at: Time) {
    && (d.status == AsCandidate || d.status == Confirming)
    && d.detectedObs != obs
    && at - d.detectedAt >= MIN_CONFIRM_DELAY
  }

  /** The first rule whose open deal is pending, was detected by another observation and is
      at least ten minutes old. */
  function ConfirmTarget(deals: seq<Deal>, o: nat, obs: nat, at: Time, rules: seq<Rule>): (r: Option<nat>)
    ensures r.Some? ==> r.value < |deals| && deals[r.value].offerId == o && AwaitsConfirmation(deals[r.value], obs, at)
  {
    if rules == [] then None else
      var i := FindOpenDeal(deals, o, rules[0]);
      if i.Some? && AwaitsConfirmation(deals[i.value], obs, at) then i else ConfirmTarget(deals, o, obs, at, rules[1..])
  }

  datatype DealAction =
    | NoDeal
    | CandidateCreated(dealId: nat)
    | Confirmed(dealId: nat, result: ConfirmResult)
    | Refreshed(dealId: nat)
    | ExpiredActive(dealId: nat, why: ExpireReason)

  datatype DealOutcome = DealOutcome(deals: seq<Deal>, tasks: seq<Task>, action: Option<DealAction>)

  function RecheckAction(d: Deal, i: nat): DealAction {
    if d.status == Expired && d.expireReason.Some? then ExpiredActive(i, d.expireReason.value) else Refreshed(i)
  }

  /** _try_recheck_active on the target. */
  function RecheckOutcome(t: Tables, f: Fetch, offer: ParsedOffer, obs: nat, i: nat): DealOutcome
    requires i < |t.deals| && offer.price.Some?
    requires t.deals[i].offerId < |t.offers| && t.offers[t.deals[i].offerId].listingId < |t.listings|
  {
    var d := t.deals[i];
    var d' := RecheckDeal(d, obs, ComparePrice(d.rule, offer), LandedPrice(offer).1, offer.availability,
                          FreshReference(t, d, offer, f.clock), f.clock.now);
    DealOutcome(t.deals[i := d'], t.tasks, Some(RecheckAction(d', i)))
  }

  /** _try_confirm on the target. */
  function ConfirmOutcome(t: Tables, f: Fetch, offer: ParsedOffer, obs: nat, v: Verdict, i: nat): DealOutcome
    requires i < |t.deals| && offer.price.Some?
    requires t.deals[i].offerId < |t.offers| && t.offers[t.deals[i].offerId].listingId < |t.listings|
  {
    var c := BuildConfirmContext(t, t.deals[i], f, offer, v);
    var result := ConfirmCandidate(c);
    DealOutcome(t.deals[i := ApplyConfirmResult(t.deals[i], obs, result, c, f.clock.now)], t.tasks,
                Some(Confirmed(i, result)))
  }

  /** _run_detection. */
  function DetectOutcome(t: Tables, f: Fetch, offer: ParsedOffer, o: nat, obs: nat): DealOutcome
    requires o < |t.offers| && t.offers[o].listingId < |t.listings|
    requires offer.price.Some? && f.persistedUrl.Some?
  {
    var row := DetectedDeal(t, f, offer, o, obs);
    if row.None? then DealOutcome(t.deals, t.tasks, Some(NoDeal)) else
      var (deals, i) := CreateCandidateDeal(t.deals, row.value);
      var tasks := if f.skipConfirmTask then t.tasks
                   else EnqueueConfirmTask(t.tasks, f.retailerId, i, f.persistedUrl.value, f.category, f.at);
      DealOutcome(deals, tasks, Some(CandidateCreated(i)))
  }

  /** What a fresh observation does to the deals of its offer: recheck an ACTIVE one, else
      confirm a pending one, else detect a new one. */
  function DealStep(t: Tables, f: Fetch, offer: ParsedOffer, o: nat, obs: nat, v: Verdict): DealOutcome
    requires o < |t.offers| && t.offers[o].listingId < |t.listings|
    requires f.persistedUrl.Some?
  {
    if offer.price.None? then DealOutcome(t.deals, t.tasks, None) else
      var recheck := if v.quality == Ok then RecheckTarget(t.deals, o, RULES) else None;
      if recheck.Some? then RecheckOutcome(t, f, offer, obs, recheck.value) else
        var pending := ConfirmTarget(t.deals, o, obs, f.at, RULES);
        if pending.Some? then ConfirmOutcome(t, f, offer, obs, v, pending.value)
        else if v.quality == Ok then DetectOutcome(t, f, offer, o, obs)
        else DealOutcome(t.deals, t.tasks, None)
  }

  // ---------------------------------------------------------------- sweeps

  predicate HasRecentOk(observations: seq<Observation>, offerId: nat, since: Time) {
    exists j :: 0 <= j < |observations| && observations[j].offerId == offerId && observations[j].quality == Ok
        && observations[j].at >= since
  }

  /** expire_stale_deals on one row. */
  function ExpireIfStale(t: Tables, d: Deal, now: Time, staleHours: int): Deal {
    if d.status == Active && !HasRecentOk(t.observations, d.offerId, now - staleHours * HOUR)
    then ExpireDeal(d, NotObserved, now) else d
  }

  function ExpireStaleDeals(t: Tables, now: Time, staleHours: int): seq<Deal> {
    seq(|t.deals|, i requires 0 <= i < |t.deals| => ExpireIfStale(t, t.deals[i], now, staleHours))
  }

  predicate Overdue(task: Task, retailerId: int, now: Time) {
    && task.retailerId == retailerId && task.kind == ConfirmTask && task.status == Queued
    && task.deadline.Some? && task.deadline.value < now
  }

  /** expire_overdue_confirm_tasks: the tasks. */
  function ExpireOverdueTasks(tasks: seq<Task>, retailerId: int, now: Time): seq<Task> {
    seq(|tasks|, i requires 0 <= i < |tasks| =>
      if Overdue(tasks[i], retailerId, now) then tasks[i].(status := TaskExpired) else tasks[i])
  }

  predicate DeadlineMissed(tasks: seq<Task>, retailerId: int, now: Time, dealId: nat) {
    exists j :: 0 <= j < |tasks| && Overdue(tasks[j], retailerId, now) && tasks[j].dealId == Some(dealId)
  }

  function RefuseLate(d: Deal): Deal {
    if d.status == AsCandidate || d.status == Confirming then
      d.(status := Refused, rejectReason := Some(ConfirmDeadlineMissed))
    else d
  }

  /** expire_overdue_confirm_tasks: the deals those tasks would have confirmed. */
  function RefuseOverdueDeals(t: Tables, retailerId: int, now: Time): seq<Deal> {
    seq(|t.deals|, i requires 0 <= i < |t.deals| =>
      if DeadlineMissed(t.tasks, retailerId, now, i) then RefuseLate(t.deals[i]) else t.deals[i])
  }
}
