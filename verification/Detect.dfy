/** The three public deal rules (fpt/deals/detect.py). */
module Detect {
  import opened Core
  import opened Percent
  import opened References

  datatype Rule = DeepDiscountNew | DeepDiscountClaimed | UsedVsCurrentNew
  datatype Lane = VerifiedLane | ClaimedLane | UsedLane

  function LaneOf(rule: Rule): Lane {
    match rule
    case DeepDiscountNew => VerifiedLane
    case DeepDiscountClaimed => ClaimedLane
    case UsedVsCurrentNew => UsedLane
  }

  datatype Candidate = Candidate(rule: Rule, price: int, reference: int, discount: int)

  /** The two tests every rule ends with: an absolute saving and a rounded percentage. */
  predicate DeepEnough(price: int, reference: int) {
    reference - price >= MIN_SAVING && Pct(price, reference) >= MIN_DISCOUNT
  }

  function DetectDeepDiscountNew(condition: Condition, availability: Availability, price: int, verified: Option<int>)
    : Option<Candidate>
  {
    if condition != New then None
    else if availability != InStock && availability != StoreOnly then None
    else if verified.None? then None
    else if verified.value - price < MIN_SAVING then None
    else
      var pct := Pct(price, verified.value);
      if pct < MIN_DISCOUNT then None else Some(Candidate(DeepDiscountNew, price, verified.value, pct))
  }

  function DetectDeepDiscountClaimed(
    condition: Condition, price: int, claimed: Option<int>, onClearance: bool, hasVerified: bool): Option<Candidate>
  {
    if condition != New then None
    else if hasVerified then None
    else if claimed.None? || !onClearance then None
    else if claimed.value - price < MIN_SAVING then None
    else
      var pct := Pct(price, claimed.value);
      if pct < MIN_DISCOUNT then None else Some(Candidate(DeepDiscountClaimed, price, claimed.value, pct))
  }

  function DetectUsedVsCurrentNew(condition: Condition, availability: Availability, landed: int,
                                  currentNew: Option<int>)
    : Option<Candidate>
  {
    if condition == New || condition == UsedAcceptable then None
    else if availability != InStock then None
    else if currentNew.None? then None
    else if currentNew.value - landed < MIN_SAVING then None
    else
      var pct := Pct(landed, currentNew.value);
      if pct < MIN_DISCOUNT then None else Some(Candidate(UsedVsCurrentNew, landed, currentNew.value, pct))
  }

  /** A candidate's numbers agree with each other. */
  ghost predicate Coherent(price: int, reference: int, discount: int) {
    && 0 < price < reference
    && discount == Pct(price, reference)
    && MIN_DISCOUNT <= discount <= 10000
  }

  lemma DeepEnoughIsCoherent(price: int, reference: int)
    requires price > 0 && DeepEnough(price, reference)
    ensures Coherent(price, reference, Pct(price, reference))
    ensures 20000 * price <= 10001 * reference
  {
    HalfOffExactly(price, reference);
    PctRange(price, reference);
  }

  /** The lowest reference is the safe one. A NEW deal detected against the minimum of the
      available references would have been detected against each of them, at a discount
      no smaller; so no choice of reference could have published less. */
  lemma LowestReferenceIsSafe(
    condition: Condition, availability: Availability, price: int,
    own: Option<OwnHistory>, cross: Option<CrossRetailer>, dataApi: Option<int>, other: VerifiedReference)
    requires price >= 0
    requires other in Available(own, cross, dataApi) && other.cents > 0
    requires forall r :: r in Available(own, cross, dataApi) ==> r.cents > 0
    ensures var best := ResolveVerifiedReference(own, cross, dataApi);
            && best.Some?
            && var found := DetectDeepDiscountNew(condition, availability, price, Some(best.value.cents));
            && var alternative := DetectDeepDiscountNew(condition, availability, price, Some(other.cents));
            found.Some? ==> alternative.Some? && alternative.value.discount >= found.value.discount
  {
    var best := ResolveVerifiedReference(own, cross, dataApi).value;
    assert best.cents <= other.cents;
    PctMonotone(price, price, best.cents, other.cents);
  }
}
