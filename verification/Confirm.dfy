/** Two-fetch confirmation, checks C1 to C10 (fpt/deals/confirm.py). */
module Confirm {
  import opened Core
  import opened Validate

  datatype DetectedVia = DiscoveryGrid | ProductPage | DataApi

  /** What C3 compares: one persistent offer of one listing. */
  datatype OfferIdentity = OfferIdentity(sku: string, offerKey: string, condition: Condition, sellerKey: string)

  datatype ConfirmContext = ConfirmContext(
    detectedAt: Time, confirmingAt: Time,
    detectedVia: DetectedVia, confirmingPage: PageType,
    detectedIdentity: OfferIdentity, confirmingIdentity: OfferIdentity,
    detectedVariantKey: Option<string>, confirmingVariantKey: Option<string>, listingVariantKey: Option<string>,
    detectedUnitCount: Option<int>, confirmingUnitCount: Option<int>, listingUnitCount: Option<int>,
    quality: Quality, reasons: seq<Reason>,
    detectedPrice: int, confirmingPrice: int,
    discount: int,
    referenceVariantKey: Option<string>, referenceGroup: Option<ConditionGroup>, referenceUnitCount: Option<int>,
    offerVariantKey: Option<string>, offerGroup: ConditionGroup, offerUnitCount: Option<int>,
    floor: Option<int>,
    reference: Option<int>)

  datatype RejectReason =
    | ConfirmTooSoon | NotFromProductPage | OfferIdentityMismatch | VariantMismatch
    | QualityRejected | QualitySuspect(reason: Reason) | PriceChanged | BelowThreshold
    | ReferenceScopeMismatch | BelowFloor | ImplausibleDiscount
    | ConfirmDeadlineMissed   // written by the deadline sweep, never by confirm_candidate

  datatype ConfirmResult = ToActive | ToHeldReview | ToRejected(reason: RejectReason)

  function OtherReasons(reasons: seq<Reason>): seq<Reason> {
    if reasons == [] then [] else
      (if reasons[0] != LargeMove then [reasons[0]] else []) + OtherReasons(reasons[1..])
  }

  predicate ScopeDiffers<T(==)>(a: Option<T>, b: Option<T>) {
    a.Some? && b.Some? && a != b
  }

  function ConfirmCandidate(c: ConfirmContext): ConfirmResult {
    if c.confirmingAt - c.detectedAt < MIN_CONFIRM_DELAY then ToRejected(ConfirmTooSoon)
    else if c.detectedVia == DiscoveryGrid && c.confirmingPage != Product then ToRejected(NotFromProductPage)
    else if c.detectedIdentity != c.confirmingIdentity then ToRejected(OfferIdentityMismatch)
    else if !(c.detectedVariantKey == c.confirmingVariantKey == c.listingVariantKey) then ToRejected(VariantMismatch)
    else if !(c.detectedUnitCount == c.confirmingUnitCount == c.listingUnitCount) then ToRejected(VariantMismatch)
    else if c.quality == Rejected then ToRejected(QualityRejected)
    else if c.quality == Suspect && OtherReasons(c.reasons) != [] then
      ToRejected(QualitySuspect(OtherReasons(c.reasons)[0]))
    else if !WithinTolerance(c.confirmingPrice, c.detectedPrice) then ToRejected(PriceChanged)
    else if c.discount < MIN_DISCOUNT then ToRejected(BelowThreshold)
    else if ScopeDiffers(c.referenceVariantKey, c.offerVariantKey) then ToRejected(ReferenceScopeMismatch)
    else if ScopeDiffers(c.referenceUnitCount, c.offerUnitCount) then ToRejected(ReferenceScopeMismatch)
    else if c.referenceGroup.Some? && c.referenceGroup.value != c.offerGroup then ToRejected(ReferenceScopeMismatch)
    else if c.floor.Some? && c.confirmingPrice < c.floor.value then ToRejected(BelowFloor)
    else if c.discount > IMPLAUSIBLE then ToRejected(ImplausibleDiscount)
    else if c.discount > HELD_REVIEW_UPPER then ToHeldReview
    else ToActive
  }

  // The checks, one predicate each, as the architecture's table lists them.
  predicate C1(c: ConfirmContext) { c.confirmingAt >= c.detectedAt + MIN_CONFIRM_DELAY }
  predicate C2(c: ConfirmContext) { c.detectedVia == DiscoveryGrid ==> c.confirmingPage == Product }
  predicate C3(c: ConfirmContext) { c.detectedIdentity == c.confirmingIdentity }
  predicate C4(c: ConfirmContext) {
    && c.detectedVariantKey == c.confirmingVariantKey == c.listingVariantKey
    && c.detectedUnitCount == c.confirmingUnitCount == c.listingUnitCount
  }
  predicate C5(c: ConfirmContext) {
    c.quality == Ok || (c.quality == Suspect && forall i :: 0 <= i < |c.reasons| ==> c.reasons[i] == LargeMove)
  }
  predicate C6(c: ConfirmContext) { WithinTolerance(c.confirmingPrice, c.detectedPrice) }
  predicate C7(c: ConfirmContext) { c.discount >= MIN_DISCOUNT }
  predicate C8(c: ConfirmContext) {
    && !ScopeDiffers(c.referenceVariantKey, c.offerVariantKey)
    && !ScopeDiffers(c.referenceUnitCount, c.offerUnitCount)
    && (c.referenceGroup.Some? ==> c.referenceGroup.value == c.offerGroup)
  }
  predicate C10(c: ConfirmContext) { c.floor.Some? ==> c.confirmingPrice >= c.floor.value }
  predicate AllChecks(c: ConfirmContext) {
    C1(c) && C2(c) && C3(c) && C4(c) && C5(c) && C6(c) && C7(c) && C8(c) && C10(c)
  }

  lemma {:induction false} OtherReasonsEmpty(reasons: seq<Reason>)
    ensures OtherReasons(reasons) == [] <==> forall i :: 0 <= i < |reasons| ==> reasons[i] == LargeMove
  {
    if reasons != [] {
      OtherReasonsEmpty(reasons[1..]);
      assert forall i :: 1 <= i < |reasons| ==> reasons[i] == reasons[1..][i - 1];
    }
  }

  /** A candidate is published exactly when every check passes and the discount is in the
      automatic band; the held and implausible bands are the other two outcomes of a
      candidate that passes every check. */
  lemma ConfirmExactly(c: ConfirmContext)
    ensures ConfirmCandidate(c) == ToActive <==> AllChecks(c) && c.discount <= HELD_REVIEW_UPPER
    ensures ConfirmCandidate(c) == ToHeldReview <==> AllChecks(c) && HELD_REVIEW_UPPER < c.discount <= IMPLAUSIBLE
    ensures ConfirmCandidate(c) == ToRejected(ImplausibleDiscount) <==> AllChecks(c) && c.discount > IMPLAUSIBLE
  {
    OtherReasonsEmpty(c.reasons);
  }

  /** The reason code names the first check that fails: each rejection implies that every
      earlier check passed. */
  lemma ReasonIsFirstFailure(c: ConfirmContext)
    requires ConfirmCandidate(c).ToRejected?
    ensures match ConfirmCandidate(c).reason
            case ConfirmTooSoon => !C1(c)
            case NotFromProductPage => C1(c) && !C2(c)
            case OfferIdentityMismatch => C1(c) && C2(c) && !C3(c)
            case VariantMismatch => C1(c) && C2(c) && C3(c) && !C4(c)
            case QualityRejected => C1(c) && C2(c) && C3(c) && C4(c) && !C5(c) && c.quality == Rejected
            case QualitySuspect(why) =>
              C1(c) && C2(c) && C3(c) && C4(c) && !C5(c) && why in c.reasons && why != LargeMove
            case PriceChanged => C1(c) && C2(c) && C3(c) && C4(c) && C5(c) && !C6(c)
            case BelowThreshold => C1(c) && C2(c) && C3(c) && C4(c) && C5(c) && C6(c) && !C7(c)
            case ReferenceScopeMismatch => C1(c) && C2(c) && C3(c) && C4(c) && C5(c) && C6(c) && C7(c) && !C8(c)
            case BelowFloor => C1(c) && C2(c) && C3(c) && C4(c) && C5(c) && C6(c) && C7(c) && C8(c) && !C10(c)
            case ImplausibleDiscount => AllChecks(c)
            case ConfirmDeadlineMissed => false
  {
    OtherReasonsEmpty(c.reasons);
    if OtherReasons(c.reasons) != [] {
      OtherReasonsMembers(c.reasons);
    }
  }

  lemma {:induction false} OtherReasonsMembers(reasons: seq<Reason>)
    requires OtherReasons(reasons) != []
    ensures OtherReasons(reasons)[0] in reasons && OtherReasons(reasons)[0] != LargeMove
  {
    if reasons[0] == LargeMove { OtherReasonsMembers(reasons[1..]); }
  }
}
