/** The adapter contract's enumerations and records, and the shipped thresholds. */
module Core {

  datatype Option<+T> = None | Some(value: T)

  /** Neither missing nor zero. */
  predicate Truthy(n: Option<int>) {
    n.Some? && n.value != 0
  }

  /** Microseconds on one clock. */
  type Time = int
  const SECOND: Time := 1_000_000
  const MINUTE: Time := 60 * SECOND
  const HOUR: Time := 60 * MINUTE
  const DAY: Time := 24 * HOUR

  datatype Condition =
    | New | NewOpenBox | Refurbished
    | UsedLikeNew | UsedVeryGood | UsedGood | UsedAcceptable | UsedUngraded

  datatype ConditionGroup = GroupNew | GroupOpenBox | GroupRefurb | GroupUsed

  /** CONDITION_GROUP: baselines never cross groups. */
  function GroupOf(c: Condition): ConditionGroup {
    match c
    case New => GroupNew
    case NewOpenBox => GroupOpenBox
    case Refurbished => GroupRefurb
    case _ => GroupUsed
  }

  /** Only used conditions share a group. */
  lemma GroupsExactly(a: Condition, b: Condition)
    ensures GroupOf(a) == GroupOf(b)
       <==> a == b || {a, b} !! {New, NewOpenBox, Refurbished}
  {
  }

  datatype SellerType = FirstParty | RetailerResale | Marketplace3P
  datatype Availability = InStock | OutOfStock | StoreOnly | Backorder | UnknownStock
  datatype PageType = Product | ClearanceListing | UsedListing | CatalogListing | ApiBatch
  datatype TaskKind = ConfirmTask | HotTask | DiscoveryTask | EnrollTask | BaselineTask | CanaryTask

  datatype ParsedOffer = ParsedOffer(
    offerKey: string,
    condition: Condition,
    sellerKey: string,
    sellerType: SellerType,
    price: Option<int>,
    shipping: Option<int>,
    claimed: Option<int>,
    onClearance: bool,
    availability: Availability,
    unitCount: Option<int>)

  /** A row of a clearance, used or catalog grid. */
  datatype DiscoveredItem = DiscoveredItem(
    productUrl: string, productCode: Option<string>,
    price: Option<int>, priceIsRange: bool, claimed: Option<int>,
    conditionHint: Option<Condition>, categoryHint: string)

  // config/deal_rules.yaml; the defaults in detect.py, confirm.py and deals.py agree with it.
  const MIN_DISCOUNT := 5000        // 50.00 %
  const MIN_SAVING := 1000          // cents
  const HELD_REVIEW_UPPER := 8500   // 85.00 %
  const IMPLAUSIBLE := 9500         // 95.00 %
  const MIN_CONFIRM_DELAY: Time := 10 * MINUTE
  const CONFIRM_DEADLINE: Time := 3 * HOUR

  /** "Within +2 %" of a price, in exact integers. */
  predicate WithinTolerance(price: int, base: int) {
    100 * price <= 102 * base
  }
}
