/** The tables of db/migrations 004 to 008 as sequences of rows; a row's id is its index.
    The queries of fpt/store that read them are functions. */
module Schema {
  import opened Core
  import opened Validate
  import opened References
  import opened Detect
  import opened Confirm

  datatype Seller = Seller(retailerId: int, sellerKey: string, sellerType: SellerType)

  datatype Listing = Listing(
    retailerId: int, sku: string, url: string,
    variantKey: Option<string>, unitCount: Option<int>, variantId: Option<int>, matchStatus: MatchStatus)

  datatype Offer = Offer(listingId: nat, sellerId: nat, offerKey: string, condition: Condition)

  datatype Observation = Observation(
    offerId: nat, at: Time, dayEt: int,
    price: Option<int>, shipping: Option<int>, claimed: Option<int>, onClearance: bool,
    availability: Availability, unitCount: Option<int>, variantKey: Option<string>,
    quality: Quality, snapshotRef: string)

  /** AsCandidate is the CANDIDATE and Refused the REJECTED of the status column. */
  datatype DealStatus = AsCandidate | Confirming | Active | HeldReview | Refused | Expired

  datatype ExpireReason = SoldOut | ReferenceLost | PriceRecovered | NotObserved

  datatype Deal = Deal(
    offerId: nat, rule: Rule, lane: Lane, status: DealStatus,
    detectedObs: nat, confirmingObs: Option<nat>, lastConfirmedObs: Option<nat>,
    detectedVia: DetectedVia, price: int, landed: Option<int>,
    referenceKind: ReferenceKind, reference: int,
    claimed: Option<int>, claimedInflated: Option<bool>, discount: int,
    detectedAt: Time, confirmedAt: Option<Time>, expiredAt: Option<Time>,
    held: bool, rejectReason: Option<RejectReason>, expireReason: Option<ExpireReason>)

  predicate IsOpen(d: Deal) {
    d.status == AsCandidate || d.status == Confirming || d.status == Active || d.status == HeldReview
  }

  datatype TaskStatus = Queued | Leased | Done | Failed | TaskExpired | SkippedRobots | SkippedBudget

  datatype DedupeKey =
    | ConfirmKey(dealId: nat)
    | EnrollKey(retailerId: int, url: string)
    | FetchKey(kind: TaskKind, retailerSlug: string, what: string, snapshotRef: string)

  datatype Task = Task(
    retailerId: int, kind: TaskKind, priority: int, url: string, category: string, dealId: Option<nat>,
    dedupeKey: DedupeKey, notBefore: Time, deadline: Option<Time>, status: TaskStatus)

  predicate IsOpenTask(t: Task) {
    t.status == Queued || t.status == Leased
  }

  datatype TrackedUrl = TrackedUrl(retailerId: int, url: string, expiresAt: Option<Time>, enabled: bool)

  datatype Hit = Hit(url: string, price: Option<int>, claimed: Option<int>, implied: Option<int>,
                     trackedId: Option<nat>, seenAt: Time)

  /** `conflicts` holds the (listing, variant) pairs with a recorded gtin_attr_conflict. */
  datatype Tables = Tables(
    sellers: seq<Seller>, listings: seq<Listing>, offers: seq<Offer>,
    observations: seq<Observation>, deals: seq<Deal>, tasks: seq<Task>,
    tracked: seq<TrackedUrl>, hits: seq<Hit>, conflicts: set<(nat, int)>)

  /** The database's own now() and CURRENT_DATE, both fixed within a transaction. */
  datatype Clock = Clock(now: Time, today: int)

  // ---------------------------------------------------------------- lookups

  /** The first index whose row satisfies p. */
  function FindIndex<T>(s: seq<T>, p: T -> bool): (r: Option<nat>)
    ensures r.Some? ==> r.value < |s| && p(s[r.value]) && forall j :: 0 <= j < r.value ==> !p(s[j])
    ensures r.None? ==> forall j :: 0 <= j < |s| ==> !p(s[j])
  {
    if s == [] then None
    else if p(s[0]) then Some(0)
    else
      var rest := FindIndex(s[1..], p);
      assert forall j :: 1 <= j < |s| ==> s[j] == s[1..][j - 1];
      if rest.Some? then Some(rest.value + 1) else None
  }

  /** How many rows an UPDATE rewrote. */
  function CountChanged<T(==)>(before: seq<T>, after: seq<T>): nat
    requires |before| == |after|
  {
    if before == [] then 0 else
      var n := |before| - 1;
      CountChanged(before[..n], after[..n]) + (if before[n] != after[n] then 1 else 0)
  }

  lemma CountNone<T>()
    ensures CountChanged<T>([], []) == 0
  {
  }

  lemma CountOneMore<T>(before: seq<T>, after: seq<T>, x: T, y: T)
    requires |before| == |after|
    ensures CountChanged(before + [x], after + [y]) == CountChanged(before, after) + (if x != y then 1 else 0)
  {
    assert (before + [x])[..|before|] == before && (after + [y])[..|after|] == after;
  }

  function FindSeller(sellers: seq<Seller>, retailerId: int, key: string): (r: Option<nat>)
    ensures r.Some? ==> r.value < |sellers|
  {
    FindIndex(sellers, (s: Seller) => s.retailerId == retailerId && s.sellerKey == key)
  }

  function FindListing(listings: seq<Listing>, retailerId: int, sku: string): (r: Option<nat>)
    ensures r.Some? ==>
              r.value < |listings| && listings[r.value].retailerId == retailerId && listings[r.value].sku == sku
    ensures r.Some? ==> forall j :: 0 <= j < r.value ==>
              !(listings[j].retailerId == retailerId && listings[j].sku == sku)
    ensures r.None? ==> forall j :: 0 <= j < |listings| ==>
              !(listings[j].retailerId == retailerId && listings[j].sku == sku)
  {
    FindIndex(listings, (l: Listing) => l.retailerId == retailerId && l.sku == sku)
  }

  function FindOffer(offers: seq<Offer>, listingId: nat, offerKey: string): (r: Option<nat>)
    ensures r.Some? ==>
              r.value < |offers| && offers[r.value].listingId == listingId && offers[r.value].offerKey == offerKey
    ensures r.Some? ==> forall j :: 0 <= j < r.value ==>
              !(offers[j].listingId == listingId && offers[j].offerKey == offerKey)
    ensures r.None? ==> forall j :: 0 <= j < |offers| ==>
              !(offers[j].listingId == listingId && offers[j].offerKey == offerKey)
  {
    FindIndex(offers, (o: Offer) => o.listingId == listingId && o.offerKey == offerKey)
  }

  /** find_existing_observation_by_snapshot: an empty reference is never a key. */
  function FindReplay(observations: seq<Observation>, offerId: nat, snapshotRef: string): (r: Option<nat>)
    ensures r.Some? ==> snapshotRef != "" && r.value < |observations|
    ensures r.Some? ==> observations[r.value].offerId == offerId && observations[r.value].snapshotRef == snapshotRef
    ensures r.None? && snapshotRef != "" ==>
              forall j :: 0 <= j < |observations| ==>
                  !(observations[j].offerId == offerId && observations[j].snapshotRef == snapshotRef)
  {
    if snapshotRef == "" then None
    else FindIndex(observations, (b: Observation) => b.offerId == offerId && b.snapshotRef == snapshotRef)
  }

  /** find_open_deal. The partial unique index leaves at most one such row, so the
      query's ORDER BY has nothing to choose between. */
  function FindOpenDeal(deals: seq<Deal>, offerId: nat, rule: Rule): (r: Option<nat>)
    ensures r.Some? ==>
              && r.value < |deals| && deals[r.value].offerId == offerId && deals[r.value].rule == rule
              && IsOpen(deals[r.value])
    ensures r.None? ==> forall j :: 0 <= j < |deals| ==>
              !(deals[j].offerId == offerId && deals[j].rule == rule && IsOpen(deals[j]))
  {
    FindIndex(deals, (d: Deal) => d.offerId == offerId && d.rule == rule && IsOpen(d))
  }

  function FindTask(tasks: seq<Task>, key: DedupeKey): (r: Option<nat>)
    ensures r.Some? ==> r.value < |tasks| && tasks[r.value].dedupeKey == key
    ensures r.None? ==> forall j :: 0 <= j < |tasks| ==> tasks[j].dedupeKey != key
  {
    FindIndex(tasks, (t: Task) => t.dedupeKey == key)
  }

  function FindOpenTask(tasks: seq<Task>, key: DedupeKey): (r: Option<nat>)
    ensures r.Some? ==> r.value < |tasks| && tasks[r.value].dedupeKey == key && IsOpenTask(tasks[r.value])
    ensures r.None? ==> forall j :: 0 <= j < |tasks| ==> !(tasks[j].dedupeKey == key && IsOpenTask(tasks[j]))
  {
    FindIndex(tasks, (t: Task) => t.dedupeKey == key && IsOpenTask(t))
  }

  /** ORDER BY observed_at DESC LIMIT 1 among the observations that satisfy p. */
  function LatestWhere(observations: seq<Observation>, p: Observation -> bool): (r: Option<nat>)
    ensures r.Some? ==> r.value < |observations| && p(observations[r.value])
    ensures r.Some? ==> forall j :: 0 <= j < |observations| && p(observations[j]) ==>
              observations[j].at <= observations[r.value].at
    ensures r.Some? ==> forall j :: r.value < j < |observations| && p(observations[j]) ==>
              observations[j].at < observations[r.value].at
    ensures r.None? ==> forall j :: 0 <= j < |observations| ==> !p(observations[j])
  {
    if observations == [] then None else
      var n := |observations| - 1;
      var best := LatestWhere(observations[..n], p);
      if !p(observations[n]) then best
      else if best.Some? && observations[best.value].at > observations[n].at then best
      else Some(n)
  }

  predicate IsOkOf(b: Observation, offerId: nat) {
    b.offerId == offerId && b.quality == Ok && b.price.Some?
  }

  /** An OK observation of the offer that no other one is later than. */
  ghost predicate IsLatestOk(observations: seq<Observation>, offerId: nat, j: nat) {
    && j < |observations| && IsOkOf(observations[j], offerId)
    && forall i :: 0 <= i < |observations| && IsOkOf(observations[i], offerId) ==>
         observations[i].at <= observations[j].at
  }

  /** _last_ok_context: the price of the latest OK observation. */
  function LastOkPrice(observations: seq<Observation>, offerId: nat): (r: Option<int>)
    ensures r.Some? ==>
              exists j :: 0 <= j < |observations| && IsLatestOk(observations, offerId, j) && observations[j].price == r
    ensures r.None? ==> forall j :: 0 <= j < |observations| ==> !IsOkOf(observations[j], offerId)
  {
    var k := LatestWhere(observations, (b: Observation) => IsOkOf(b, offerId));
    assert k.Some? ==> IsLatestOk(observations, offerId, k.value);
    if k.Some? then observations[k.value].price else None
  }

  // ---------------------------------------------------------------- R1

  const OWN_HISTORY_WINDOW_DAYS := 90

  predicate CountsForHistory(b: Observation, offerId: nat, since: int) {
    IsOkOf(b, offerId) && !b.onClearance && b.dayEt >= since
  }

  ghost predicate PriceFrom(observations: seq<Observation>, offerId: nat, since: int, n: nat, price: int)
    requires n <= |observations|
  {
    exists j :: 0 <= j < n && CountsForHistory(observations[j], offerId, since) && observations[j].price == Some(price)
  }

  /** A day's latest qualifying observation. */
  function LatestOfDay(observations: seq<Observation>, offerId: nat, since: int, day: int): (r: Option<nat>)
    ensures r.Some? ==>
              && r.value < |observations| && CountsForHistory(observations[r.value], offerId, since)
              && observations[r.value].dayEt == day
              && forall j :: 0 <= j < |observations| && CountsForHistory(observations[j], offerId, since) ==>
                   observations[j].dayEt == day ==> observations[j].at <= observations[r.value].at
    ensures r.None? ==> forall j :: 0 <= j < |observations| && CountsForHistory(observations[j], offerId, since) ==>
              observations[j].dayEt != day
  {
    LatestWhere(observations, (c: Observation) => CountsForHistory(c, offerId, since) && c.dayEt == day)
  }

  /** DISTINCT ON (observed_date_et): one price a day, the day's latest. */
  function DailyPrices(observations: seq<Observation>, offerId: nat, since: int, n: nat): (r: seq<NonClearanceDay>)
    requires n <= |observations|
    ensures forall i :: 0 <= i < |r| ==> PriceFrom(observations, offerId, since, n, r[i].price)
  {
    if n == 0 then [] else
      var b := observations[n - 1];
      var earlier := DailyPrices(observations, offerId, since, n - 1);
      assert forall i :: 0 <= i < |earlier| ==> PriceFrom(observations, offerId, since, n - 1, earlier[i].price);
      if CountsForHistory(b, offerId, since) && LatestOfDay(observations, offerId, since, b.dayEt) == Some(n - 1)
      then earlier + [NonClearanceDay(b.dayEt, b.price.value)]
      else earlier
  }

  function ResolveOwnHistory(t: Tables, offerId: nat, clock: Clock): Option<OwnHistory> {
    ResolveOwnHistoryMedian(DailyPrices(t.observations, offerId, clock.today - OWN_HISTORY_WINDOW_DAYS,
                                        |t.observations|))
  }

  // ---------------------------------------------------------------- R2 and U1

  const CROSS_RETAILER_MAX_AGE: Time := 7 * DAY
  const CURRENT_NEW_MAX_AGE: Time := 48 * HOUR

  /** Both lookups join listings, offers and the latest recent in-stock OK observation of
      one variant. With `pack` (R2) the listing must record that pack count, be sold by
      the retailer itself and carry no barcode conflict. R2's category test compares the
      category of one and the same variant with itself, so it has no counterpart here. */
  datatype NewOffersQuery = NewOffersQuery(variantId: int, exclude: nat, since: Time, pack: Option<int>)

  datatype NewOfferRow = NewOfferRow(retailerId: int, at: Time, price: int, landed: int, listing: Listing)

  /** An OK observation of offer j, in stock and not older than `since`. */
  predicate IsRecent(b: Observation, j: nat, since: Time) {
    IsOkOf(b, j) && b.availability == InStock && b.at >= since
  }

  /** The row describes observation k of offer j, and no recent one is later. */
  ghost predicate RowOfLatest(t: Tables, q: NewOffersQuery, j: nat, k: nat, row: NewOfferRow) {
    && k < |t.observations| && IsRecent(t.observations[k], j, q.since)
    && (forall i :: 0 <= i < |t.observations| && IsRecent(t.observations[i], j, q.since) ==>
          t.observations[i].at <= t.observations[k].at)
    && var b := t.observations[k];
       && row.at == b.at && b.price == Some(row.price)
       && row.landed == row.price + (if b.shipping.Some? then b.shipping.value else 0)
  }

  /** Offer j may back a reference for the query: another NEW offer of the variant and, with
      `pack`, of that pack count, sold first party and without a barcode conflict. */
  predicate Qualifies(t: Tables, q: NewOffersQuery, j: nat)
    requires j < |t.offers|
  {
    var o := t.offers[j];
    && j != q.exclude && GroupOf(o.condition) == GroupNew && o.listingId < |t.listings| && o.sellerId < |t.sellers|
    && t.listings[o.listingId].variantId == Some(q.variantId)
    && (q.pack.Some? ==>
          && t.listings[o.listingId].unitCount == q.pack
          && t.sellers[o.sellerId].sellerType == FirstParty
          && (o.listingId, q.variantId) !in t.conflicts)
  }

  function RecentRow(t: Tables, q: NewOffersQuery, j: nat): (r: Option<NewOfferRow>)
    requires j < |t.offers|
    ensures r.Some? ==>
              && Qualifies(t, q, j) && r.value.listing == t.listings[t.offers[j].listingId]
              && r.value.retailerId == r.value.listing.retailerId
              && exists k :: 0 <= k < |t.observations| && RowOfLatest(t, q, j, k, r.value)
    ensures r.None? && Qualifies(t, q, j) ==>
              forall i :: 0 <= i < |t.observations| ==> !IsRecent(t.observations[i], j, q.since)
  {
    var o := t.offers[j];
    if j == q.exclude || GroupOf(o.condition) != GroupNew then None
    else if o.listingId >= |t.listings| || o.sellerId >= |t.sellers| then None else
      var l := t.listings[o.listingId];
      if l.variantId != Some(q.variantId) then None
      else if q.pack.Some? && (l.unitCount != q.pack || t.sellers[o.sellerId].sellerType != FirstParty
                               || (o.listingId, q.variantId) in t.conflicts) then None
      else
        var k := LatestWhere(t.observations, (b: Observation) => IsRecent(b, j, q.since));
        if k.None? then None else
          var b := t.observations[k.value];
          var shipping := if b.shipping.Some? then b.shipping.value else 0;
          var row := NewOfferRow(l.retailerId, b.at, b.price.value, b.price.value + shipping, l);
          assert RowOfLatest(t, q, j, k.value, row);
          Some(row)
  }

  /** DISTINCT ON (retailer_id): a retailer is represented by its most recently observed offer. */
  predicate RepresentsRetailer(t: Tables, q: NewOffersQuery, j: nat)
    requires j < |t.offers|
  {
    var row := RecentRow(t, q, j);
    row.Some? && forall i :: 0 <= i < |t.offers| && i != j ==>
      var other := RecentRow(t, q, i);
      other.Some? && other.value.retailerId == row.value.retailerId ==>
        other.value.at < row.value.at || (other.value.at == row.value.at && j < i)
  }

  function RecentRows(t: Tables, q: NewOffersQuery, n: nat): (r: seq<NewOfferRow>)
    requires n <= |t.offers|
    ensures forall i :: 0 <= i < |r| ==> exists j :: 0 <= j < n && RecentRow(t, q, j) == Some(r[i])
  {
    if n == 0 then [] else
      var earlier := RecentRows(t, q, n - 1);
      if RepresentsRetailer(t, q, n - 1) then earlier + [RecentRow(t, q, n - 1).value] else earlier
  }

  function ResolveCrossRetailer(t: Tables, offerId: nat, l: Listing, group: ConditionGroup,
                                clock: Clock): Option<CrossRetailer> {
    if l.variantId.None? || group != GroupNew || l.unitCount.None? then None else
      var rows :=
          RecentRows(t, NewOffersQuery(l.variantId.value, offerId, clock.now - CROSS_RETAILER_MAX_AGE, l.unitCount),
                     |t.offers|);
      ResolveCrossRetailerNew(seq(|rows|, i requires 0 <= i < |rows| =>
        CrossRetailer(rows[i].retailerId, rows[i].price, rows[i].listing.matchStatus, rows[i].listing.variantKey,
                      rows[i].listing.unitCount)))
  }

  function CheapestRow(rows: seq<NewOfferRow>): (r: NewOfferRow)
    requires rows != []
    ensures r in rows && forall i :: 0 <= i < |rows| ==> r.landed <= rows[i].landed
  {
    if |rows| == 1 then rows[0] else
      var rest := CheapestRow(rows[1..]);
      if rows[0].landed <= rest.landed then rows[0] else rest
  }

  /** U1 with the winning listing's identity; the plain price lookup is its `landed`. */
  function ResolveCurrentNew(t: Tables, variantId: Option<int>, exclude: nat, clock: Clock): Option<NewOfferRow> {
    if variantId.None? then None else
      var rows :=
          RecentRows(t, NewOffersQuery(variantId.value, exclude, clock.now - CURRENT_NEW_MAX_AGE, None), |t.offers|);
      if rows == [] then None else Some(CheapestRow(rows))
  }

  // ---------------------------------------------------------------- the offer's stored context

  /** get_offer_context: the stored listing of an offer. */
  function ListingOf(t: Tables, o: nat): Listing
    requires o < |t.offers| && t.offers[o].listingId < |t.listings|
  {
    t.listings[t.offers[o].listingId]
  }

  function ResolveVerifiedReferenceForOffer(t: Tables, o: nat, clock: Clock): Option<VerifiedReference>
    requires o < |t.offers| && t.offers[o].listingId < |t.listings|
  {
    ResolveVerifiedReference(
      ResolveOwnHistory(t, o, clock),
      ResolveCrossRetailer(t, o, ListingOf(t, o), GroupOf(t.offers[o].condition), clock),
      None)
  }
}
