/** What a refresh of an ACTIVE deal does not look at: the upper bands, and the stored kind of
    the reference. */
module Refreshes {
  import opened Core
  import opened Percent
  import opened References
  import opened Detect
  import opened Schema
  import opened DealRules
  import opened Lifecycle

  /** The bands of a confirmation play no part in a refresh: a deal that stays ACTIVE shows
      more than 85.00 % exactly when its price is that low against the current reference, and
      then it is neither held nor expired; likewise for 95.00 %. */
  lemma RefreshBandsExactly(d: Deal, obs: nat, compare: int, landed: Option<int>, availability: Availability,
                            reference: Option<int>, now: Time)
    requires d.status == Active
    ensures var e := RecheckDeal(d, obs, compare, landed, availability, reference, now);
            e.status == Active ==>
              && reference.Some? && reference.value > 0
              && (e.discount > HELD_REVIEW_UPPER <==> 20000 * compare < 2999 * reference.value)
              && (e.discount > IMPLAUSIBLE <==> 20000 * compare < 999 * reference.value)
  {
    if reference.Some? && reference.value > 0 { UpperBandsExactly(compare, reference.value); }
  }

  /** The reference that a recheck takes, with its kind. */
  function TakenReference(t: Tables, d: Deal, offer: ParsedOffer, clock: Clock): Option<(ReferenceKind, int)>
    requires d.offerId < |t.offers| && t.offers[d.offerId].listingId < |t.listings|
  {
    if d.lane == UsedLane then
      var current := ResolveCurrentNew(t, ListingOf(t, d.offerId).variantId, d.offerId, clock);
      if current.Some? then Some((CurrentNew, current.value.landed)) else None
    else
      var verified := ResolveVerifiedReferenceForOffer(t, d.offerId, clock);
      if verified.Some? then Some((verified.value.kind, verified.value.cents))
      else if d.lane == ClaimedLane && Truthy(offer.claimed) then Some((RetailerClaimed, offer.claimed.value))
      else None
  }

  lemma TakenIsFresh(t: Tables, d: Deal, offer: ParsedOffer, clock: Clock)
    requires d.offerId < |t.offers| && t.offers[d.offerId].listingId < |t.listings| && KindFits(d)
    ensures var taken := TakenReference(t, d, offer, clock);
            var verified := ResolveVerifiedReferenceForOffer(t, d.offerId, clock);
            && FreshReference(t, d, offer, clock) == (if taken.Some? then Some(taken.value.1) else None)
            && (taken.Some? ==>
                  && (d.referenceKind == taken.value.0 <==>
                        d.lane == UsedLane || verified.None? || verified.value.kind == d.referenceKind)
                  && (d.lane == ClaimedLane ==> (d.referenceKind == taken.value.0 <==> verified.None?)))
  {
    VerifiedKind(t, d.offerId, clock);
    hide ResolveVerifiedReferenceForOffer, ResolveCurrentNew;
  }

  /** After a refresh the stored reference is the one just taken, and the stored kind is its
      kind if and only if no verified reference of another kind exists by then. For a CLAIMED
      deal that means: if and only if there is no verified reference at all. */
  lemma KindDescribesExactly(t: Tables, d: Deal, offer: ParsedOffer, obs: nat, compare: int, landed: Option<int>,
                             clock: Clock)
    requires d.offerId < |t.offers| && t.offers[d.offerId].listingId < |t.listings|
    requires d.status == Active && KindFits(d)
    ensures var e :=
              RecheckDeal(d, obs, compare, landed, offer.availability, FreshReference(t, d, offer, clock), clock.now);
            var taken := TakenReference(t, d, offer, clock);
            var verified := ResolveVerifiedReferenceForOffer(t, d.offerId, clock);
            e.status == Active ==>
              && taken.Some? && e.reference == taken.value.1
              && (e.referenceKind == taken.value.0 <==>
                    d.lane == UsedLane || verified.None? || verified.value.kind == d.referenceKind)
              && (d.lane == ClaimedLane ==> (e.referenceKind == taken.value.0 <==> verified.None?))
  {
    hide FreshReference, TakenReference, ResolveVerifiedReferenceForOffer, KindFits, Pct;
    TakenIsFresh(t, d, offer, clock);
  }
}
