/** What a confirming fetch must show, said of the stored rows and the fetch themselves. */
module Confirmations {
  import opened Core
  import opened Percent
  import opened Validate
  import opened References
  import opened Detect
  import opened Confirm
  import opened Schema
  import opened DealRules

  /** The detecting observation, this parse and the stored listing agree on the variant and
      on the pack count. */
  predicate SameProduct(b: Observation, f: Fetch, offer: ParsedOffer, l: Listing) {
    && b.variantKey == Some(f.variantKey) && l.variantKey == Some(f.variantKey)
    && b.unitCount == offer.unitCount && l.unitCount == offer.unitCount
  }

  /** OK, or flagged for nothing but a large move. */
  predicate Clean(v: Verdict) {
    v.quality == Ok || (v.quality == Suspect && forall r :: r in v.reasons ==> r == LargeMove)
  }

  /** The reference's listing, where it is known, is of the same variant and pack count. */
  predicate SameScope(key: Option<string>, units: Option<int>, f: Fetch, offer: ParsedOffer, l: Listing) {
    && (key.None? || key == Some(f.variantKey))
    && var own := if offer.unitCount.Some? then offer.unitCount else l.unitCount;
       units.None? || own.None? || units == own
  }

  /** At least ten minutes old, seen on a product page if detected on a grid, the same product,
      clean, at most 2 % dearer than stored, and not below the floor. */
  predicate SecondLook(t: Tables, d: Deal, f: Fetch, offer: ParsedOffer, v: Verdict)
    requires d.offerId < |t.offers| && t.offers[d.offerId].listingId < |t.listings|
    requires offer.price.Some? && d.detectedObs < |t.observations|
  {
    && f.at - d.detectedAt >= 10 * MINUTE && (d.detectedVia == DiscoveryGrid ==> f.page == Product)
    && SameProduct(t.observations[d.detectedObs], f, offer, ListingOf(t, d.offerId))
    && Clean(v)
    && 100 * offer.price.value <= 102 * d.price
    && (f.category in f.bands && f.bands[f.category].floor.Some? ==>
          offer.price.value >= f.bands[f.category].floor.value)
  }

  /** The confirming price against the reference, as a result. */
  predicate Outcome(r: ConfirmResult, ok: bool, price: int, reference: int) {
    && (r == ToActive <==> ok && 2999 * reference <= 20000 * price <= 10001 * reference)
    && (r == ToHeldReview <==> ok && 999 * reference <= 20000 * price < 2999 * reference)
    && (r == ToRejected(ImplausibleDiscount) <==> ok && 20000 * price < 999 * reference)
  }

  lemma CleanExactly(c: ConfirmContext)
    ensures C5(c) <==> Clean(Verdict(c.quality, c.reasons))
  {
    assert forall i :: 0 <= i < |c.reasons| ==> c.reasons[i] in c.reasons;
  }

  lemma BandsDecide(c: ConfirmContext, ok: bool, reference: int)
    requires reference > 0 && c.discount == Pct(c.confirmingPrice, reference)
    requires AllChecks(c) <==> ok && c.discount >= MIN_DISCOUNT
    ensures Outcome(ConfirmCandidate(c), ok, c.confirmingPrice, reference)
  {
    hide AllChecks, ConfirmCandidate, Pct;
    ConfirmExactly(c);
    HalfOffExactly(c.confirmingPrice, reference);
    UpperBandsExactly(c.confirmingPrice, reference);
  }

  // ---------------------------------------------------------------- NEW lanes

  /** The confirmation of a NEW-lane deal. With a reference, its outcome is decided by the
      second look, the offer's group and the reference's scope, and then by the price alone;
      without one it is always rejected. */
  lemma ConfirmsNewExactly(t: Tables, d: Deal, f: Fetch, offer: ParsedOffer, v: Verdict, reference: int)
    requires d.offerId < |t.offers| && t.offers[d.offerId].listingId < |t.listings|
    requires offer.price.Some? && d.detectedObs < |t.observations|
    requires d.lane == VerifiedLane || d.lane == ClaimedLane
    ensures var verified := ResolveVerifiedReferenceForOffer(t, d.offerId, f.clock);
            var r := ConfirmCandidate(BuildConfirmContext(t, d, f, offer, v));
            var ok :=
              && SecondLook(t, d, f, offer, v)
              && GroupOf(t.offers[d.offerId].condition) == GroupNew
              && (verified.Some? && verified.value.kind == CrossRetailerNew ==>
                    SameScope(verified.value.variantKey, verified.value.unitCount, f, offer, ListingOf(t, d.offerId)));
            var cents := if verified.Some? then Some(verified.value.cents)
                         else if d.lane == ClaimedLane then offer.claimed else None;
            && (cents == Some(reference) && reference > 0 ==> Outcome(r, ok, offer.price.value, reference))
            && (cents.None? || cents.value <= 0 ==> r.ToRejected? && r != ToRejected(ImplausibleDiscount))
  {
    hide ResolveVerifiedReferenceForOffer, ConfirmCandidate, Pct, Outcome;
    var c := BuildConfirmContext(t, d, f, offer, v);
    CleanExactly(c);
    ConfirmExactly(c);
    var verified := ResolveVerifiedReferenceForOffer(t, d.offerId, f.clock);
    var cents := if verified.Some? then Some(verified.value.cents)
                 else if d.lane == ClaimedLane then offer.claimed else None;
    if cents == Some(reference) && reference > 0 {
      var ok :=
        && SecondLook(t, d, f, offer, v)
        && GroupOf(t.offers[d.offerId].condition) == GroupNew
        && (verified.Some? && verified.value.kind == CrossRetailerNew ==>
              SameScope(verified.value.variantKey, verified.value.unitCount, f, offer, ListingOf(t, d.offerId)));
      BandsDecide(c, ok, reference);
    } else if cents.None? || cents.value <= 0 {
      assert !C7(c);
    }
  }

  // ---------------------------------------------------------------- the USED lane

  /** The confirmation of a USED deal, against the cheapest current NEW offer. */
  lemma ConfirmsUsedExactly(t: Tables, d: Deal, f: Fetch, offer: ParsedOffer, v: Verdict)
    requires d.offerId < |t.offers| && t.offers[d.offerId].listingId < |t.listings|
    requires offer.price.Some? && d.detectedObs < |t.observations| && d.lane == UsedLane
    ensures var current := ResolveCurrentNew(t, ListingOf(t, d.offerId).variantId, d.offerId, f.clock);
            var r := ConfirmCandidate(BuildConfirmContext(t, d, f, offer, v));
            if current.None? || current.value.landed <= 0
            then r.ToRejected? && r != ToRejected(ImplausibleDiscount)
            else
              var ok :=
                && SecondLook(t, d, f, offer, v)
                && GroupOf(t.offers[d.offerId].condition) == GroupNew
                && SameScope(current.value.listing.variantKey, current.value.listing.unitCount, f, offer,
                             ListingOf(t, d.offerId));
              Outcome(r, ok, offer.price.value, current.value.landed)
  {
    hide ResolveCurrentNew, ConfirmCandidate, Pct, Outcome;
    var c := BuildConfirmContext(t, d, f, offer, v);
    CleanExactly(c);
    ConfirmExactly(c);
    var current := ResolveCurrentNew(t, ListingOf(t, d.offerId).variantId, d.offerId, f.clock);
    if current.None? || current.value.landed <= 0 {
      assert !C7(c);
    } else {
      var ok :=
        && SecondLook(t, d, f, offer, v)
        && GroupOf(t.offers[d.offerId].condition) == GroupNew
        && SameScope(current.value.listing.variantKey, current.value.listing.unitCount, f, offer,
                     ListingOf(t, d.offerId));
      BandsDecide(c, ok, current.value.landed);
    }
  }

  // ---------------------------------------------------------------- another product

  /** A pending deal that is old enough is rejected for its variant exactly when the detecting
      observation, this parse and the stored listing are not the same product: the detected
      side is the stored one, not this parse's. */
  lemma VariantGuardExactly(t: Tables, d: Deal, f: Fetch, offer: ParsedOffer, v: Verdict)
    requires d.offerId < |t.offers| && t.offers[d.offerId].listingId < |t.listings|
    requires offer.price.Some? && d.detectedObs < |t.observations|
    requires f.at - d.detectedAt >= 10 * MINUTE && (d.detectedVia == DiscoveryGrid ==> f.page == Product)
    ensures ConfirmCandidate(BuildConfirmContext(t, d, f, offer, v)) == ToRejected(VariantMismatch)
       <==> !SameProduct(t.observations[d.detectedObs], f, offer, ListingOf(t, d.offerId))
  {
    hide FreshReference, ReferenceIdentity;
  }
}
