/** When a fresh observation opens a deal, and which: the three rules said of the offer, its
    stored condition and the references that exist. */
module Detections {
  import opened Core
  import opened Percent
  import opened References
  import opened Detect
  import opened Confirm
  import opened Schema
  import opened DealRules

  /** Ten dollars saved and half the reference off, where 49.995 % rounds up. */
  predicate Deep(price: int, reference: int) {
    reference > 0 && reference - price >= 1000 && 20000 * price <= 10001 * reference
  }

  /** The VERIFIED rule: a NEW offer that can be bought, deep against the verified reference. */
  predicate VerifiedDetected(group: ConditionGroup, offer: ParsedOffer, verified: Option<VerifiedReference>)
    requires offer.price.Some?
  {
    && group == GroupNew && offer.condition == New && (offer.availability == InStock || offer.availability == StoreOnly)
    && verified.Some? && Deep(offer.price.value, verified.value.cents)
  }

  /** The CLAIMED rule: a NEW offer on clearance, deep against its own claim, and no verified
      reference to say otherwise. */
  predicate ClaimedDetected(group: ConditionGroup, offer: ParsedOffer, verified: Option<VerifiedReference>)
    requires offer.price.Some?
  {
    && group == GroupNew && offer.condition == New && verified.None?
    && offer.onClearance && offer.claimed.Some? && Deep(offer.price.value, offer.claimed.value)
  }

  /** The price with its shipping, where that is known. */
  function WithShipping(offer: ParsedOffer): int
    requires offer.price.Some?
  {
    offer.price.value + (if offer.shipping.Some? then offer.shipping.value else 0)
  }

  /** The USED rule: an offer in stock that is neither NEW nor in acceptable condition only,
      deep, with shipping, against the cheapest current NEW offer. */
  predicate UsedDetected(group: ConditionGroup, offer: ParsedOffer, current: Option<NewOfferRow>)
    requires offer.price.Some?
  {
    && group != GroupNew && offer.condition != New && offer.condition != UsedAcceptable && offer.availability == InStock
    && current.Some? && Deep(WithShipping(offer), current.value.landed)
  }

  /** A fresh, pending row of this observation. */
  predicate FreshRow(d: Deal, o: nat, obs: nat, at: Time, price: int, reference: int) {
    && d.offerId == o && d.status == Confirming
    && d.detectedObs == obs && d.detectedAt == at && d.detectedVia == ProductPage
    && d.price == price && d.reference == reference && d.discount == Pct(price, reference)
    && d.landed.None? && !d.held && d.confirmingObs.None? && d.lastConfirmedObs.None?
    && d.confirmedAt.None? && d.expiredAt.None? && d.rejectReason.None? && d.expireReason.None?
  }

  /** A claim is inflated when it is over 125 % of the verified reference. */
  predicate InflationOf(d: Deal, claimed: Option<int>, verified: Option<VerifiedReference>) {
    d.claimedInflated
      == if claimed.None? || verified.None? then None else Some(100 * claimed.value > 125 * verified.value.cents)
  }

  lemma DeepExactly(price: int, reference: int)
    ensures reference - price >= MIN_SAVING && Pct(price, reference) >= MIN_DISCOUNT <==> Deep(price, reference)
  {
    if reference > 0 { HalfOffExactly(price, reference); }
  }

  lemma VerifiedExactly(group: ConditionGroup, offer: ParsedOffer, verified: Option<VerifiedReference>)
    requires offer.price.Some? && group == GroupNew
    ensures var cents := if verified.Some? then Some(verified.value.cents) else None;
            DetectDeepDiscountNew(offer.condition, offer.availability, offer.price.value, cents)
              == if VerifiedDetected(group, offer, verified)
                 then Some(Candidate(DeepDiscountNew, offer.price.value, cents.value,
                                     Pct(offer.price.value, cents.value)))
                 else None
  {
    hide Pct;
    if verified.Some? { DeepExactly(offer.price.value, verified.value.cents); }
  }

  lemma ClaimedExactly(group: ConditionGroup, offer: ParsedOffer, verified: Option<VerifiedReference>)
    requires offer.price.Some? && group == GroupNew
    ensures DetectDeepDiscountClaimed(offer.condition, offer.price.value, offer.claimed, offer.onClearance,
                                      verified.Some?)
              == if ClaimedDetected(group, offer, verified)
                 then Some(Candidate(DeepDiscountClaimed, offer.price.value, offer.claimed.value,
                                     Pct(offer.price.value, offer.claimed.value)))
                 else None
  {
    hide Pct;
    if offer.claimed.Some? { DeepExactly(offer.price.value, offer.claimed.value); }
  }

  lemma UsedExactly(group: ConditionGroup, offer: ParsedOffer, current: Option<NewOfferRow>)
    requires offer.price.Some? && group != GroupNew
    ensures var cents := if current.Some? then Some(current.value.landed) else None;
            DetectUsedVsCurrentNew(offer.condition, offer.availability, LandedPrice(offer).0.value, cents)
              == if UsedDetected(group, offer, current)
                 then Some(Candidate(UsedVsCurrentNew, WithShipping(offer), cents.value,
                                     Pct(WithShipping(offer), cents.value)))
                 else None
  {
    hide Pct;
    if current.Some? { DeepExactly(WithShipping(offer), current.value.landed); }
  }

  /** A row is detected if and only if one of the three rules fires; it is then a fresh
      pending row of that rule at the observed price. */
  lemma DetectsExactly(t: Tables, f: Fetch, offer: ParsedOffer, o: nat, obs: nat)
    requires o < |t.offers| && t.offers[o].listingId < |t.listings| && offer.price.Some?
    ensures var row := DetectedDeal(t, f, offer, o, obs);
            var group := GroupOf(t.offers[o].condition);
            var verified := ResolveVerifiedReferenceForOffer(t, o, f.clock);
            var current := ResolveCurrentNew(t, t.listings[t.offers[o].listingId].variantId, o, f.clock);
            && (row.Some? && row.value.rule == DeepDiscountNew <==> VerifiedDetected(group, offer, verified))
            && (row.Some? && row.value.rule == DeepDiscountClaimed <==> ClaimedDetected(group, offer, verified))
            && (row.Some? && row.value.rule == UsedVsCurrentNew <==> UsedDetected(group, offer, current))
            && (row.Some? ==> row.value.lane == LaneOf(row.value.rule))
            && (VerifiedDetected(group, offer, verified) ==>
                  && FreshRow(row.value, o, obs, f.at, offer.price.value, verified.value.cents)
                  && row.value.referenceKind == verified.value.kind && row.value.claimed == offer.claimed
                  && InflationOf(row.value, offer.claimed, verified))
            && (ClaimedDetected(group, offer, verified) ==>
                  && FreshRow(row.value, o, obs, f.at, offer.price.value, offer.claimed.value)
                  && row.value.referenceKind == RetailerClaimed && row.value.claimed == offer.claimed
                  && InflationOf(row.value, offer.claimed, verified))
            && (UsedDetected(group, offer, current) ==>
                  && FreshRow(row.value, o, obs, f.at, WithShipping(offer), current.value.landed)
                  && row.value.referenceKind == CurrentNew
                  && row.value.claimed.None? && row.value.claimedInflated.None?)
  {
    hide ResolveVerifiedReferenceForOffer, ResolveCurrentNew, Pct, Deep;
    hide DetectDeepDiscountNew, DetectDeepDiscountClaimed, DetectUsedVsCurrentNew;
    var group := GroupOf(t.offers[o].condition);
    var verified := ResolveVerifiedReferenceForOffer(t, o, f.clock);
    if group == GroupNew {
      VerifiedExactly(group, offer, verified);
      ClaimedExactly(group, offer, verified);
    } else {
      UsedExactly(group, offer, ResolveCurrentNew(t, t.listings[t.offers[o].listingId].variantId, o, f.clock));
    }
  }
}
