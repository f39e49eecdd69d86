/** Two places where the code does less than its comments promise, with the exact condition
    under which the promise holds: the USED lane is never published, and the price of a
    recheck is not in the basis of the stored one. */
module UsedLane {
  import opened Core
  import opened Percent
  import opened Validate
  import opened References
  import opened Detect
  import opened Confirm
  import opened Schema
  import opened DealRules
  import opened EnrollRules
  import opened Steps
  import opened Lifecycle

  // ---------------------------------------------------------------- USED_VS_CURRENT_NEW

  /** The checks of a confirmation without C8's comparison of condition groups. */
  ghost predicate ChecksButGroup(c: ConfirmContext) {
    && C1(c) && C2(c) && C3(c) && C4(c) && C5(c) && C6(c) && C7(c) && C10(c)
    && !ScopeDiffers(c.referenceVariantKey, c.offerVariantKey)
    && !ScopeDiffers(c.referenceUnitCount, c.offerUnitCount)
  }

  /** A USED-lane deal's reference is a NEW offer, so C8 lets it through exactly when its own
      offer is stored as NEW by the time it is confirmed. */
  lemma UsedPublishedExactly(t: Tables, d: Deal, f: Fetch, offer: ParsedOffer, v: Verdict)
    requires d.offerId < |t.offers| && t.offers[d.offerId].listingId < |t.listings|
    requires offer.price.Some? && d.lane == UsedLane
    ensures var c := BuildConfirmContext(t, d, f, offer, v);
            !ConfirmCandidate(c).ToRejected?
            <==> GroupOf(t.offers[d.offerId].condition) == GroupNew && ChecksButGroup(c) && c.discount <= IMPLAUSIBLE
  {
    var c := BuildConfirmContext(t, d, f, offer, v);
    ConfirmExactly(c);
  }

  /** No step of the run moves offer o to another condition group. */
  predicate FixedGroup(t: Tables, steps: seq<Step>, o: nat)
    decreases steps
  {
    steps == [] ||
    var u := Apply(t, steps[0]);
    && (o < |t.offers| && o < |u.offers| ==> GroupOf(u.offers[o].condition) == GroupOf(t.offers[o].condition))
    && FixedGroup(u, steps[1..], o)
  }

  /** If offer o has USED deals, it is not NEW and none of them was ever published. */
  ghost predicate UsedOf(t: Tables, o: nat) {
    forall i :: 0 <= i < |t.deals| && t.deals[i].lane == UsedLane && t.deals[i].offerId == o ==>
      && o < |t.offers| && GroupOf(t.offers[o].condition) != GroupNew
      && (t.deals[i].status == Confirming || t.deals[i].status == Refused)
  }

  /** A row that stays with its offer and lane keeps the property, if it is no USED deal or
      stays CONFIRMING or is rejected. */
  lemma UsedReplaced(t: Tables, i: nat, e: Deal, o: nat)
    requires UsedOf(t, o) && i < |t.deals| && e.offerId == t.deals[i].offerId && e.lane == t.deals[i].lane
    requires e.lane == UsedLane && e.offerId == o ==> e.status == Confirming || e.status == Refused
    ensures UsedOf(t.(deals := t.deals[i := e]), o)
  {
  }

  lemma UsedConfirm(t: Tables, f: Fetch, offer: ParsedOffer, k: nat, v: Verdict, i: nat, o: nat)
    requires UsedOf(t, o) && i < |t.deals| && offer.price.Some?
    requires t.deals[i].offerId < |t.offers| && t.offers[t.deals[i].offerId].listingId < |t.listings|
    ensures UsedOf(t.(deals := ConfirmOutcome(t, f, offer, k, v, i).deals), o)
  {
    var d := t.deals[i];
    var c := BuildConfirmContext(t, d, f, offer, v);
    if d.lane == UsedLane { UsedPublishedExactly(t, d, f, offer, v); }
    UsedReplaced(t, i, ApplyConfirmResult(d, k, ConfirmCandidate(c), c, f.clock.now), o);
  }

  lemma UsedRecheck(t: Tables, f: Fetch, offer: ParsedOffer, k: nat, i: nat, o: nat)
    requires UsedOf(t, o) && i < |t.deals| && offer.price.Some? && t.deals[i].status == Active
    requires t.deals[i].offerId < |t.offers| && t.offers[t.deals[i].offerId].listingId < |t.listings|
    ensures UsedOf(t.(deals := RecheckOutcome(t, f, offer, k, i).deals), o)
  {
    var d := t.deals[i];
    UsedReplaced(t, i, RecheckDeal(d, k, ComparePrice(d.rule, offer), LandedPrice(offer).1, offer.availability,
                                   FreshReference(t, d, offer, f.clock), f.clock.now), o);
  }

  /** Only an offer that is not NEW is detected in the USED lane. */
  lemma DetectedLane(t: Tables, f: Fetch, offer: ParsedOffer, o: nat, k: nat)
    requires o < |t.offers| && t.offers[o].listingId < |t.listings| && offer.price.Some?
    ensures var row := DetectedDeal(t, f, offer, o, k);
            row.Some? && row.value.lane == UsedLane ==> GroupOf(t.offers[o].condition) != GroupNew
  {
    hide ResolveVerifiedReferenceForOffer, ResolveCurrentNew, ClaimedInflated;
  }

  lemma UsedDetect(t: Tables, f: Fetch, offer: ParsedOffer, q: nat, k: nat, o: nat)
    requires UsedOf(t, o) && q < |t.offers| && t.offers[q].listingId < |t.listings|
    requires f.persistedUrl.Some? && offer.price.Some?
    ensures UsedOf(t.(deals := DetectOutcome(t, f, offer, q, k).deals), o)
  {
    hide DetectedDeal;
    DetectedShape(t, f, offer, q, k);
    DetectedLane(t, f, offer, q, k);
  }

  lemma UsedStep(t: Tables, f: Fetch, offer: ParsedOffer, q: nat, k: nat, v: Verdict, o: nat)
    requires UsedOf(t, o) && q < |t.offers| && t.offers[q].listingId < |t.listings| && f.persistedUrl.Some?
    ensures UsedOf(t.(deals := DealStep(t, f, offer, q, k, v).deals), o)
  {
    hide DetectOutcome, RecheckOutcome, ConfirmOutcome;
    if offer.price.Some? {
      var recheck := if v.quality == Ok then RecheckTarget(t.deals, q, RULES) else None;
      var pending := ConfirmTarget(t.deals, q, k, f.at, RULES);
      if recheck.Some? {
        UsedRecheck(t, f, offer, k, recheck.value, o);
      } else if pending.Some? {
        UsedConfirm(t, f, offer, k, v, pending.value, o);
      } else if v.quality == Ok {
        UsedDetect(t, f, offer, q, k, o);
      }
    }
  }

  /** The offers after an observation. */
  lemma ObservedOffers(t: Tables, f: Fetch, offer: ParsedOffer)
    ensures var u := ObserveStep(t, f, offer);
            |t.offers| <= |u.offers|
            && (u == t || var l := FindListing(t.listings, f.retailerId, f.sku);
                          l.Some? && u.offers == WithOffer(t, f, offer, l.value).0.offers)
  {
    hide DealStep;
  }

  lemma UsedObserve(t: Tables, f: Fetch, offer: ParsedOffer, o: nat)
    requires UsedOf(t, o)
    requires var u := ObserveStep(t, f, offer);
             o < |t.offers| && o < |u.offers| ==> GroupOf(u.offers[o].condition) == GroupOf(t.offers[o].condition)
    ensures UsedOf(ObserveStep(t, f, offer), o)
  {
    hide DealStep, VerdictOf, ObservationRow;
    ObservedOffers(t, f, offer);
    var l := FindListing(t.listings, f.retailerId, f.sku);
    if l.Some? && f.persistedUrl.Some? && !ObserveOffer(t, f, offer, l.value).Violation? {
      var (t1, q) := WithOffer(t, f, offer, l.value);
      assert UsedOf(t1, o);
      var v := VerdictOf(t, f, offer, q);
      var t2 := t1.(observations := t.observations + [ObservationRow(f, offer, q, v.quality)]);
      UsedStep(t2, f, offer, q, |t.observations|, v, o);
    }
  }

  lemma UsedApply(t: Tables, step: Step, o: nat)
    requires UsedOf(t, o)
    requires var u := Apply(t, step);
             o < |t.offers| && o < |u.offers| ==> GroupOf(u.offers[o].condition) == GroupOf(t.offers[o].condition)
    ensures UsedOf(Apply(t, step), o)
  {
    hide ObserveStep, StoreListingAndTask, EnrollItem;
    match step
    case Observe(f, offer) => UsedObserve(t, f, offer, o);
    case StoreListing(f) => StoringKeepsDeals(t, f);
    case Enroll(sweep, row) => EnrollingKeepsDeals(t, sweep, row);
    case _ =>
  }

  lemma StoringKeepsDeals(t: Tables, f: Fetch)
    ensures f.persistedUrl.Some? ==>
              StoreListingAndTask(t, f).deals == t.deals && StoreListingAndTask(t, f).offers == t.offers
  {
  }

  lemma EnrollingKeepsDeals(t: Tables, sweep: Sweep, row: GridRow)
    ensures var u := EnrollItem(t, EnrollOutcome(0, 0, 0, 0, 0), sweep, row).0;
            u.deals == t.deals && u.offers == t.offers
  {
  }

  /** While an offer's own condition group stays fixed, no run publishes, holds or expires a
      USED deal of it, whatever happens to all other offers: every one of them stays
      CONFIRMING or is rejected. */
  lemma {:induction false} UsedNeverPublished(t: Tables, steps: seq<Step>, o: nat)
    requires UsedOf(t, o) && FixedGroup(t, steps, o)
    ensures UsedOf(Run(t, steps), o)
    decreases steps
  {
    hide Apply;
    if steps != [] {
      UsedApply(t, steps[0], o);
      UsedNeverPublished(Apply(t, steps[0]), steps[1..], o);
    }
  }

  // ---------------------------------------------------------------- the price basis

  /** A NEW-lane deal just confirmed at its raw price and observed again unchanged, with the
      same reference: it stays ACTIVE exactly when the shipping is unknown or small enough
      (2 % of the price, and a landed price still at half the reference). Free or unknown
      shipping is the only case that is safe for every price. */
  lemma IdenticalRecheckExactly(d: Deal, offer: ParsedOffer, obs: nat, now: Time)
    requires d.status == Active && d.rule != UsedVsCurrentNew
    requires Coherent(d.price, d.reference, d.discount)
    requires offer.price == Some(d.price)
    requires offer.shipping.Some? ==> offer.shipping.value >= 0
    ensures var e :=
              RecheckDeal(d, obs, ComparePrice(d.rule, offer), LandedPrice(offer).1, offer.availability,
                          Some(d.reference), now);
            e.status == Active <==>
              && (offer.availability == InStock || offer.availability == StoreOnly)
              && (offer.shipping.None? ||
                  (100 * offer.shipping.value <= 2 * d.price
                   && 20000 * (d.price + offer.shipping.value) <= 10001 * d.reference))
  {
    HalfOffExactly(ComparePrice(d.rule, offer), d.reference);
    HalfOffExactly(d.price, d.reference);
  }

  /** A reel confirmed at 50.00 dollars against 200.00 with 5.99 shipping expires as
      "price recovered" the next time it is seen, unchanged. */
  lemma ShippingExpiresAnUnchangedDeal()
    ensures var offer :=
              ParsedOffer("sku", New, "first_party", FirstParty, Some(5000), Some(599), None, true, InStock, None);
            var d := Deal(0, DeepDiscountNew, VerifiedLane, Active, 0, Some(1), Some(1), ProductPage, 5000, None,
                          CrossRetailerNew, 20000, None, None, 7500, 0, Some(0), None, false, None, None);
            && Coherent(d.price, d.reference, d.discount)
            && var e :=
                 RecheckDeal(d, 2, ComparePrice(d.rule, offer), LandedPrice(offer).1, offer.availability,
                             Some(d.reference), 0);
               e.status == Expired && e.expireReason == Some(PriceRecovered)
  {
  }
}
