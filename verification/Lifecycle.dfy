/** What every step keeps of the deals table, and hence every run: the lifecycle of a deal,
    the coherence of its stored numbers and the single role of each observation. */
module Lifecycle {
  import opened Core
  import opened Percent
  import opened Validate
  import opened References
  import opened Detect
  import opened Confirm
  import opened Schema
  import opened DealRules
  import opened Sources
  import opened Steps

  // ---------------------------------------------------------------- the invariant

  ghost predicate ObservationOk(t: Tables, b: Observation) {
    && b.offerId < |t.offers|
    && (b.quality == Rejected || (b.price.Some? && b.price.value > 0))
    && (b.shipping.Some? ==> b.shipping.value >= 0)
    && (b.claimed.Some? ==> b.claimed.value > 0)
  }

  /** Observation c confirmed or refused deal d: another, later fetch of the same offer. */
  ghost predicate SecondFetch(t: Tables, d: Deal, c: nat) {
    && d.detectedObs < c < |t.observations|
    && t.observations[c].offerId == d.offerId
    && t.observations[c].at >= d.detectedAt + MIN_CONFIRM_DELAY
  }

  /** The reject reasons the pipeline can write. */
  predicate Writable(r: RejectReason) {
    !(r.ConfirmTooSoon? || r.NotFromProductPage? || r.OfferIdentityMismatch? || r.BelowFloor?)
  }

  ghost predicate StatusOk(t: Tables, d: Deal) {
    match d.status
    case AsCandidate => false
    case Confirming => d.confirmingObs.None? && d.lastConfirmedObs.None? && d.rejectReason.None?
    case Refused =>
      && d.lastConfirmedObs.None? && d.rejectReason.Some? && Writable(d.rejectReason.value)
      && (d.confirmingObs.None? <==> d.rejectReason == Some(ConfirmDeadlineMissed))
      && (d.confirmingObs.Some? ==> SecondFetch(t, d, d.confirmingObs.value))
    case _ =>
      && d.rejectReason.None?
      && d.confirmingObs.Some? && SecondFetch(t, d, d.confirmingObs.value)
      && d.lastConfirmedObs.Some?
      && d.confirmingObs.value <= d.lastConfirmedObs.value < |t.observations|
      && t.observations[d.lastConfirmedObs.value].offerId == d.offerId
  }

  /** The kind a deal is detected with; it is never rewritten, even when a refresh takes its
      reference from elsewhere. */
  predicate KindFits(d: Deal) {
    match d.lane
    case VerifiedLane => d.referenceKind == OwnHistoryMedian90d || d.referenceKind == CrossRetailerNew
    case ClaimedLane => d.referenceKind == RetailerClaimed && d.claimed.Some?
    case UsedLane => d.referenceKind == CurrentNew && d.claimed.None?
  }

  /** Each dated column is filled exactly in the statuses it belongs to. */
  predicate DatesFit(d: Deal) {
    && (d.confirmedAt.Some? <==> d.status == Active || d.status == Expired)
    && (d.expiredAt.Some? <==> d.status == Expired)
    && (d.expireReason.Some? <==> d.status == Expired)
  }

  /** The landed price of an observation, when its shipping is known. */
  function LandedOf(b: Observation): Option<int> {
    if b.price.Some? && b.shipping.Some? then Some(b.price.value + b.shipping.value) else None
  }

  /** The price a recheck or a USED detection takes from an observation. */
  function ComparedOf(b: Observation): Option<int> {
    if LandedOf(b).Some? then LandedOf(b) else b.price
  }

  /** Where the stored price comes from. Until a confirmation it is what the detecting
      observation offered; a confirmation stores the raw price of the confirming one; a
      refresh stores the landed price, where it is known, of the latest one. */
  ghost predicate PriceSourced(observations: seq<Observation>, d: Deal) {
    match d.status
    case AsCandidate => true
    case Confirming => DetectedPrice(observations, d)
    case Refused => DetectedPrice(observations, d)
    case HeldReview => ConfirmedPrice(observations, d)
    case _ =>
      if d.lastConfirmedObs == d.confirmingObs then ConfirmedPrice(observations, d) else RefreshedPrice(observations, d)
  }

  ghost predicate DetectedPrice(observations: seq<Observation>, d: Deal) {
    && d.detectedObs < |observations| && d.landed.None?
    && var b := observations[d.detectedObs];
       Some(d.price) == if d.rule == UsedVsCurrentNew then ComparedOf(b) else b.price
  }

  ghost predicate ConfirmedPrice(observations: seq<Observation>, d: Deal) {
    && d.confirmingObs.Some? && d.confirmingObs.value < |observations| && d.landed.None?
    && observations[d.confirmingObs.value].price == Some(d.price)
  }

  ghost predicate RefreshedPrice(observations: seq<Observation>, d: Deal) {
    && d.lastConfirmedObs.Some? && d.lastConfirmedObs.value < |observations|
    && var b := observations[d.lastConfirmedObs.value];
       ComparedOf(b) == Some(d.price) && d.landed == LandedOf(b)
  }

  predicate Buyable(b: Observation) {
    b.availability == InStock || b.availability == StoreOnly
  }

  /** What the detecting observation must have shown, lane by lane; the claim is its own. */
  predicate DetectionShows(d: Deal, b: Observation) {
    && b.quality == Ok
    && match d.lane {
         case VerifiedLane => Buyable(b) && d.claimed == b.claimed
         case ClaimedLane =>
           && b.onClearance && d.claimed == b.claimed
           && (d.status == Confirming || d.status == Refused ==> Some(d.reference) == b.claimed)
         case UsedLane => b.availability == InStock
       }
  }

  /** A deal past its confirmation was confirmed by an observation of the same variant and
      pack count that is not REJECTED; a refresh needs an OK one that can still be bought. */
  ghost predicate EvidenceOk(observations: seq<Observation>, d: Deal) {
    && d.detectedObs < |observations| && DetectionShows(d, observations[d.detectedObs])
    && (d.status == Active || d.status == HeldReview || d.status == Expired ==>
          && d.confirmingObs.Some? && d.confirmingObs.value < |observations|
          && d.lastConfirmedObs.Some? && d.lastConfirmedObs.value < |observations|
          && var b, c, l := observations[d.detectedObs], observations[d.confirmingObs.value],
                            observations[d.lastConfirmedObs.value];
             && c.quality != Rejected && c.variantKey == b.variantKey && c.unitCount == b.unitCount
             && (d.lastConfirmedObs != d.confirmingObs ==> l.quality == Ok && Buyable(l)))
  }

  ghost predicate DealOk(t: Tables, d: Deal) {
    && d.offerId < |t.offers|
    && d.lane == LaneOf(d.rule)
    && d.detectedVia == ProductPage
    && d.detectedObs < |t.observations|
    && t.observations[d.detectedObs].offerId == d.offerId
    && t.observations[d.detectedObs].at == d.detectedAt
    && Coherent(d.price, d.reference, d.discount)
    && PriceSourced(t.observations, d) && EvidenceOk(t.observations, d)
    && KindFits(d) && DatesFit(d)
    && (d.claimed.Some? ==> d.claimed.value > 0)
    && StatusOk(t, d)
    && (d.held <==> d.status == HeldReview)
    && (d.status == HeldReview ==> HELD_REVIEW_UPPER < d.discount <= IMPLAUSIBLE)
  }

  /** deals_one_open_per_offer_rule. */
  ghost predicate OneOpen(deals: seq<Deal>) {
    forall i, j :: 0 <= i < j < |deals| && IsOpen(deals[i]) && IsOpen(deals[j]) ==>
      deals[i].offerId != deals[j].offerId || deals[i].rule != deals[j].rule
  }

  /** The observations a deal row names. */
  predicate Names(d: Deal, k: nat) {
    d.detectedObs == k || d.confirmingObs == Some(k) || d.lastConfirmedObs == Some(k)
  }

  ghost predicate OneRole(deals: seq<Deal>) {
    forall i, j, k: nat :: 0 <= i < j < |deals| && Names(deals[i], k) ==> !Names(deals[j], k)
  }

  ghost predicate DealsOk(t: Tables) {
    && (forall i :: 0 <= i < |t.offers| ==> t.offers[i].listingId < |t.listings| && t.offers[i].sellerId < |t.sellers|)
    && (forall i :: 0 <= i < |t.observations| ==> ObservationOk(t, t.observations[i]))
    && (forall i :: 0 <= i < |t.deals| ==> DealOk(t, t.deals[i]))
    && OneOpen(t.deals)
    && OneRole(t.deals)
  }

  // ---------------------------------------------------------------- the edges

  /** The columns that are written once. */
  predicate SameDeal(d: Deal, e: Deal) {
    && d.offerId == e.offerId && d.rule == e.rule && d.lane == e.lane
    && d.detectedObs == e.detectedObs && d.detectedAt == e.detectedAt && d.detectedVia == e.detectedVia
    && d.referenceKind == e.referenceKind && d.claimed == e.claimed && d.claimedInflated == e.claimedInflated
  }

  /** One step of one deal. A new price is within +2 % of the stored one and comes with a
      new confirming or refreshing observation. */
  predicate Edge(d: Deal, e: Deal) {
    && SameDeal(d, e)
    && (e == d
        || (d.status == Confirming && (e.status == Active || e.status == HeldReview || e.status == Refused))
        || (d.status == Active && (e.status == Active || e.status == Expired)))
    && (if e.lastConfirmedObs == d.lastConfirmedObs
        then e.price == d.price && e.reference == d.reference && e.discount == d.discount
        else WithinTolerance(e.price, d.price))
    && (d.status == Confirming && e.status == Active ==> e.discount <= HELD_REVIEW_UPPER)
    && (d.status == Active ==> e.confirmingObs == d.confirmingObs)
  }

  /** At most one row is changed, and none when a row is added. */
  ghost predicate TouchesOne(a: seq<Deal>, b: seq<Deal>) {
    && |a| <= |b| <= |a| + 1
    && (|b| > |a| ==> b[..|a|] == a)
    && (forall i, j :: 0 <= i < |a| && 0 <= j < |a| && a[i] != b[i] && a[j] != b[j] ==> i == j)
  }

  ghost predicate Edges(a: seq<Deal>, b: seq<Deal>) {
    && |a| <= |b|
    && (forall i :: 0 <= i < |a| ==> Edge(a[i], b[i]))
    && (forall i :: |a| <= i < |b| ==> b[i].status == Confirming)
  }

  // ---------------------------------------------------------------- one row at a time

  lemma UpdateRow(t: Tables, i: nat, d: Deal, k: nat)
    requires DealsOk(t) && i < |t.deals| && DealOk(t, d)
    requires SameDeal(t.deals[i], d) && (IsOpen(d) ==> IsOpen(t.deals[i]))
    requires forall j :: 0 <= j < |t.deals| ==> !Names(t.deals[j], k)
    requires forall n: nat :: Names(d, n) ==> n == k || Names(t.deals[i], n)
    ensures DealsOk(t.(deals := t.deals[i := d]))
    ensures Edge(t.deals[i], d) ==> Edges(t.deals, t.deals[i := d])
    ensures TouchesOne(t.deals, t.deals[i := d])
  {
    hide PriceSourced, EvidenceOk, Coherent, KindFits, DatesFit;
    var deals := t.deals[i := d];
    forall a | 0 <= a < |deals| ensures DealOk(t.(deals := deals), deals[a]) {
      assert DealOk(t, deals[a]);
    }
  }

  lemma AppendUnique(deals: seq<Deal>, d: Deal)
    requires OneOpen(deals) && OneRole(deals) && FindOpenDeal(deals, d.offerId, d.rule).None?
    requires forall k: nat :: Names(d, k) ==> k == d.detectedObs
    requires forall j :: 0 <= j < |deals| ==> !Names(deals[j], d.detectedObs)
    ensures OneOpen(deals + [d]) && OneRole(deals + [d])
  {
    var all := deals + [d];
    forall i, j, k: nat | 0 <= i < j < |all| && Names(all[i], k) ensures !Names(all[j], k) {
      if j < |deals| { assert Names(deals[i], k); }
    }
  }

  lemma AppendRow(t: Tables, d: Deal)
    requires DealsOk(t) && DealOk(t, d) && d.status == Confirming
    requires FindOpenDeal(t.deals, d.offerId, d.rule).None?
    requires forall j :: 0 <= j < |t.deals| ==> !Names(t.deals[j], d.detectedObs)
    ensures DealsOk(t.(deals := t.deals + [d]))
    ensures Edges(t.deals, t.deals + [d]) && TouchesOne(t.deals, t.deals + [d])
  {
    hide OneOpen, OneRole, FindOpenDeal;
    var deals := t.deals + [d];
    AppendUnique(t.deals, d);
    forall a | 0 <= a < |deals| ensures DealOk(t.(deals := deals), deals[a]) {
      assert DealOk(t, deals[a]);
    }
    assert deals[..|t.deals|] == t.deals;
  }

  // ---------------------------------------------------------------- references are positive

  lemma DailyPricesPositive(t: Tables, o: nat, since: int)
    requires forall i :: 0 <= i < |t.observations| ==> ObservationOk(t, t.observations[i])
    ensures var days := DailyPrices(t.observations, o, since, |t.observations|);
            forall i :: 0 <= i < |days| ==> days[i].price > 0
  {
  }

  lemma OwnHistoryPositive(t: Tables, o: nat, clock: Clock)
    requires forall i :: 0 <= i < |t.observations| ==> ObservationOk(t, t.observations[i])
    ensures var own := ResolveOwnHistory(t, o, clock); own.Some? ==> own.value.median > 0
  {
    var since := clock.today - OWN_HISTORY_WINDOW_DAYS;
    DailyPricesPositive(t, o, since);
    var days := DailyPrices(t.observations, o, since, |t.observations|);
    if days != [] { MedianPositive(Prices(days)); }
  }

  lemma RowsPositive(t: Tables, q: NewOffersQuery)
    requires forall i :: 0 <= i < |t.observations| ==> ObservationOk(t, t.observations[i])
    ensures var rows := RecentRows(t, q, |t.offers|);
            forall i :: 0 <= i < |rows| ==> rows[i].price > 0 && rows[i].landed > 0
  {
    var rows := RecentRows(t, q, |t.offers|);
    forall i | 0 <= i < |rows| ensures rows[i].price > 0 && rows[i].landed > 0 {
      var j :| 0 <= j < |t.offers| && RecentRow(t, q, j) == Some(rows[i]);
    }
  }

  lemma CrossRetailerPositive(t: Tables, o: nat, l: Listing, group: ConditionGroup, clock: Clock)
    requires forall i :: 0 <= i < |t.observations| ==> ObservationOk(t, t.observations[i])
    ensures var r := ResolveCrossRetailer(t, o, l, group, clock); r.Some? ==> r.value.price > 0
  {
    hide RecentRows, RecentRow, ObservationOk, ResolveCrossRetailerNew, CandidatesOf;
    if l.variantId.Some? && l.unitCount.Some? && group == GroupNew {
      hide ResolveCrossRetailer;
      var q := NewOffersQuery(l.variantId.value, o, clock.now - CROSS_RETAILER_MAX_AGE, l.unitCount);
      RowsPositive(t, q);
      ResolveFromRows(t, o, l, clock);
      CandidatePositive(RecentRows(t, q, |t.offers|));
    }
  }

  lemma CandidatePositive(rows: seq<NewOfferRow>)
    requires forall i :: 0 <= i < |rows| ==> rows[i].price > 0
    ensures var r := ResolveCrossRetailerNew(CandidatesOf(rows)); r.Some? ==> r.value.price > 0
  {
    var r := ResolveCrossRetailerNew(CandidatesOf(rows));
    if r.Some? {
      var i :| 0 <= i < |CandidatesOf(rows)| && CandidatesOf(rows)[i] == r.value;
    }
  }

  lemma VerifiedPositive(t: Tables, o: nat, clock: Clock)
    requires o < |t.offers| && t.offers[o].listingId < |t.listings|
    requires forall i :: 0 <= i < |t.observations| ==> ObservationOk(t, t.observations[i])
    ensures var r := ResolveVerifiedReferenceForOffer(t, o, clock); r.Some? ==> r.value.cents > 0
  {
    OwnHistoryPositive(t, o, clock);
    CrossRetailerPositive(t, o, ListingOf(t, o), GroupOf(t.offers[o].condition), clock);
  }

  /** Without a data API, a verified reference is R1 or R2. */
  lemma VerifiedKind(t: Tables, o: nat, clock: Clock)
    requires o < |t.offers| && t.offers[o].listingId < |t.listings|
    ensures var r := ResolveVerifiedReferenceForOffer(t, o, clock);
            r.Some? ==> r.value.kind == OwnHistoryMedian90d || r.value.kind == CrossRetailerNew
  {
    hide ResolveOwnHistory, ResolveCrossRetailer;
  }

  lemma CurrentNewPositive(t: Tables, variantId: Option<int>, o: nat, clock: Clock)
    requires forall i :: 0 <= i < |t.observations| ==> ObservationOk(t, t.observations[i])
    ensures var r := ResolveCurrentNew(t, variantId, o, clock); r.Some? ==> r.value.landed > 0
  {
    if variantId.Some? {
      RowsPositive(t, NewOffersQuery(variantId.value, o, clock.now - CURRENT_NEW_MAX_AGE, None));
    }
  }

  lemma FreshPositive(t: Tables, d: Deal, offer: ParsedOffer, clock: Clock)
    requires d.offerId < |t.offers| && t.offers[d.offerId].listingId < |t.listings|
    requires forall i :: 0 <= i < |t.observations| ==> ObservationOk(t, t.observations[i])
    requires offer.claimed.Some? ==> offer.claimed.value > 0
    ensures var r := FreshReference(t, d, offer, clock); r.Some? ==> r.value > 0
  {
    if d.lane == UsedLane {
      CurrentNewPositive(t, ListingOf(t, d.offerId).variantId, d.offerId, clock);
    } else {
      VerifiedPositive(t, d.offerId, clock);
    }
  }

  // ---------------------------------------------------------------- the three outcomes

  /** A stored observation k of offer o and the verdict it was stored with. */
  ghost predicate JustStored(t: Tables, f: Fetch, offer: ParsedOffer, o: nat, k: nat, v: Verdict) {
    && o < |t.offers| && |t.observations| == k + 1
    && t.observations[k] == ObservationRow(f, offer, o, v.quality)
    && (forall j :: 0 <= j < |t.deals| ==> !Names(t.deals[j], k))
    && RowAllowed(offer)
    && f.persistedUrl.Some?
    && (offer.price.Some? ==>
          && (v.quality == Rejected <==> offer.price.value <= 0)
          && (v.quality != Rejected && OutsideBand(f.bands, f.category, offer.price.value) ==>
                v.quality == Suspect && OutOfBand in v.reasons))
  }

  lemma DeepIsCoherent(price: int, reference: int)
    requires price > 0 && reference > 0 && Pct(price, reference) >= MIN_DISCOUNT
    ensures Coherent(price, reference, Pct(price, reference))
  {
    HalfOffExactly(price, reference);
    PctRange(price, reference);
  }

  lemma ExpiredRowOk(t: Tables, d: Deal, why: ExpireReason, now: Time)
    requires DealOk(t, d) && d.status == Active
    ensures DealOk(t, ExpireDeal(d, why, now)) && Edge(d, ExpireDeal(d, why, now))
  {
  }

  lemma RefreshedRowOk(t: Tables, d: Deal, k: nat, compare: int, landed: Option<int>, reference: int)
    requires DealOk(t, d) && d.status == Active && !Names(d, k)
    requires |t.observations| == k + 1 && t.observations[k].offerId == d.offerId
    requires ComparedOf(t.observations[k]) == Some(compare) && LandedOf(t.observations[k]) == landed
    requires t.observations[k].quality == Ok && Buyable(t.observations[k])
    requires WithinTolerance(compare, d.price) && Coherent(compare, reference, Pct(compare, reference))
    ensures var e := d.(price := compare, landed := landed, discount := Pct(compare, reference), reference := reference,
                        lastConfirmedObs := Some(k));
            DealOk(t, e) && Edge(d, e)
  {
    hide Pct;
  }

  lemma RecheckedRowOk(t: Tables, d: Deal, k: nat, compare: int, landed: Option<int>, availability: Availability,
                       reference: Option<int>, now: Time)
    requires DealOk(t, d) && d.status == Active && !Names(d, k)
    requires |t.observations| == k + 1 && t.observations[k].offerId == d.offerId
    requires ComparedOf(t.observations[k]) == Some(compare) && LandedOf(t.observations[k]) == landed
    requires compare > 0 && (reference.Some? ==> reference.value > 0)
    requires t.observations[k].quality == Ok && t.observations[k].availability == availability
    ensures var e := RecheckDeal(d, k, compare, landed, availability, reference, now);
            DealOk(t, e) && Edge(d, e)
  {
    hide DealOk, Edge, ExpireDeal, Pct;
    ExpiredRowOk(t, d, SoldOut, now);
    ExpiredRowOk(t, d, ReferenceLost, now);
    ExpiredRowOk(t, d, PriceRecovered, now);
    if reference.Some? && Pct(compare, reference.value) >= MIN_DISCOUNT && WithinTolerance(compare, d.price)
       && Buyable(t.observations[k]) {
      DeepIsCoherent(compare, reference.value);
      RefreshedRowOk(t, d, k, compare, landed, reference.value);
    }
  }

  lemma RecheckKeeps(t: Tables, f: Fetch, offer: ParsedOffer, o: nat, k: nat, v: Verdict, i: nat)
    requires DealsOk(t) && JustStored(t, f, offer, o, k, v)
    requires offer.price.Some? && v.quality == Ok
    requires i < |t.deals| && t.deals[i].status == Active && t.deals[i].offerId == o
    ensures var out := RecheckOutcome(t, f, offer, k, i);
            DealsOk(t.(deals := out.deals)) && Edges(t.deals, out.deals) && TouchesOne(t.deals, out.deals)
  {
    hide FreshReference, DealOk;
    var d := t.deals[i];
    assert DealOk(t, d);
    FreshPositive(t, d, offer, f.clock);
    assert offer.price.value > 0 && (offer.shipping.Some? ==> offer.shipping.value >= 0);
    RecheckedRowOk(t, d, k, ComparePrice(d.rule, offer), LandedPrice(offer).1, offer.availability,
                   FreshReference(t, d, offer, f.clock), f.clock.now);
    UpdateRow(t, i, RecheckOutcome(t, f, offer, k, i).deals[i], k);
  }

  /** The pipeline never rejects for the gap, the page type, the identity or the floor: it
      only asks after ten minutes, only about PRODUCT_PAGE detections of one offer row, and
      a price under the floor was already flagged out_of_band. */
  lemma PipelineReasons(t: Tables, d: Deal, f: Fetch, offer: ParsedOffer, o: nat, k: nat, v: Verdict)
    requires JustStored(t, f, offer, o, k, v) && d.offerId == o && t.offers[o].listingId < |t.listings|
    requires offer.price.Some? && d.detectedVia == ProductPage && f.at - d.detectedAt >= MIN_CONFIRM_DELAY
    ensures var r := ConfirmCandidate(BuildConfirmContext(t, d, f, offer, v));
            r.ToRejected? ==> Writable(r.reason) && r.reason != ConfirmDeadlineMissed
  {
    var c := BuildConfirmContext(t, d, f, offer, v);
    var r := ConfirmCandidate(c);
    if r.ToRejected? {
      ReasonIsFirstFailure(c);
      if r.reason == BelowFloor {
        assert false;
      }
    }
  }

  lemma ConfirmedRowOk(t: Tables, d: Deal, f: Fetch, offer: ParsedOffer, o: nat, k: nat, v: Verdict)
    requires DealsOk(t) && JustStored(t, f, offer, o, k, v) && DealOk(t, d)
    requires offer.price.Some? && d.offerId == o && AwaitsConfirmation(d, k, f.at)
    ensures var c := BuildConfirmContext(t, d, f, offer, v);
            var e := ApplyConfirmResult(d, k, ConfirmCandidate(c), c, f.clock.now);
            DealOk(t, e) && Edge(d, e)
  {
    hide FreshReference, ReferenceIdentity, ConfirmCandidate;
    var c := BuildConfirmContext(t, d, f, offer, v);
    var r := ConfirmCandidate(c);
    if r.ToRejected? {
      PipelineReasons(t, d, f, offer, o, k, v);
    } else {
      ConfirmExactly(c);
      assert v.quality != Rejected;
      assert c.reference.Some? && c.reference.value > 0;
      DeepIsCoherent(offer.price.value, c.reference.value);
    }
  }

  lemma ConfirmKeeps(t: Tables, f: Fetch, offer: ParsedOffer, o: nat, k: nat, v: Verdict, i: nat)
    requires DealsOk(t) && JustStored(t, f, offer, o, k, v)
    requires offer.price.Some?
    requires i < |t.deals| && t.deals[i].offerId == o && AwaitsConfirmation(t.deals[i], k, f.at)
    ensures var out := ConfirmOutcome(t, f, offer, k, v, i);
            DealsOk(t.(deals := out.deals)) && Edges(t.deals, out.deals) && TouchesOne(t.deals, out.deals)
  {
    ConfirmedRowOk(t, t.deals[i], f, offer, o, k, v);
    UpdateRow(t, i, ConfirmOutcome(t, f, offer, k, v, i).deals[i], k);
  }

  lemma DetectedRowOk(t: Tables, f: Fetch, offer: ParsedOffer, o: nat, k: nat, v: Verdict)
    requires DealsOk(t) && JustStored(t, f, offer, o, k, v)
    requires offer.price.Some? && v.quality == Ok
    ensures var row := DetectedDeal(t, f, offer, o, k);
            row.Some? ==>
                DealOk(t, row.value) && row.value.status == Confirming && row.value.offerId == o
                    && row.value.detectedObs == k
  {
    hide ResolveVerifiedReferenceForOffer, ResolveCurrentNew, ClaimedInflated, PriceSourced, EvidenceOk, Pct;
    VerifiedKind(t, o, f.clock);
    DetectedPriceOk(t, f, offer, o, k, v);
    DetectedEvidence(t, f, offer, o, k, v);
    var row := DetectedDeal(t, f, offer, o, k);
    if row.Some? {
      DeepEnoughIsCoherent(row.value.price, row.value.reference);
    }
  }

  lemma DetectedPriceOk(t: Tables, f: Fetch, offer: ParsedOffer, o: nat, k: nat, v: Verdict)
    requires DealsOk(t) && JustStored(t, f, offer, o, k, v) && offer.price.Some?
    ensures var row := DetectedDeal(t, f, offer, o, k); row.Some? ==> PriceSourced(t.observations, row.value)
  {
    hide ResolveVerifiedReferenceForOffer, ResolveCurrentNew, ClaimedInflated, Pct;
  }

  lemma DetectedEvidence(t: Tables, f: Fetch, offer: ParsedOffer, o: nat, k: nat, v: Verdict)
    requires JustStored(t, f, offer, o, k, v) && offer.price.Some? && v.quality == Ok
    requires t.offers[o].listingId < |t.listings|
    ensures var row := DetectedDeal(t, f, offer, o, k); row.Some? ==> EvidenceOk(t.observations, row.value)
  {
    hide ResolveVerifiedReferenceForOffer, ResolveCurrentNew, ClaimedInflated, Pct;
  }

  lemma DetectKeeps(t: Tables, f: Fetch, offer: ParsedOffer, o: nat, k: nat, v: Verdict)
    requires DealsOk(t) && JustStored(t, f, offer, o, k, v)
    requires offer.price.Some? && v.quality == Ok
    ensures var out := DetectOutcome(t, f, offer, o, k);
            DealsOk(t.(deals := out.deals)) && Edges(t.deals, out.deals) && TouchesOne(t.deals, out.deals)
  {
    DetectedRowOk(t, f, offer, o, k, v);
    var row := DetectedDeal(t, f, offer, o, k);
    if row.Some? && FindOpenDeal(t.deals, o, row.value.rule).None? {
      AppendRow(t, row.value);
    }
  }

  lemma DealStepKeeps(t: Tables, f: Fetch, offer: ParsedOffer, o: nat, k: nat, v: Verdict)
    requires DealsOk(t) && JustStored(t, f, offer, o, k, v)
    ensures var out := DealStep(t, f, offer, o, k, v);
            DealsOk(t.(deals := out.deals)) && Edges(t.deals, out.deals) && TouchesOne(t.deals, out.deals)
  {
    hide RecheckOutcome, ConfirmOutcome, DetectOutcome;
    if offer.price.Some? {
      var recheck := if v.quality == Ok then RecheckTarget(t.deals, o, RULES) else None;
      var pending := ConfirmTarget(t.deals, o, k, f.at, RULES);
      if recheck.Some? {
        RecheckKeeps(t, f, offer, o, k, v, recheck.value);
      } else if pending.Some? {
        ConfirmKeeps(t, f, offer, o, k, v, pending.value);
      } else if v.quality == Ok {
        DetectKeeps(t, f, offer, o, k, v);
      }
    }
  }

  // ---------------------------------------------------------------- what an action reports

  /** Every row but i is as it was, and row i is still the same deal. */
  ghost predicate OnlyRow(a: seq<Deal>, b: seq<Deal>, i: nat) {
    && i < |a| == |b| && SameDeal(a[i], b[i])
    && forall j :: 0 <= j < |a| && j != i ==> b[j] == a[j]
  }

  /** The reported action is exactly what happened to the deals of offer o: a fresh
      observation detects, or confirms, or rechecks, and never two of these. */
  ghost predicate ActionMeans(a: seq<Deal>, b: seq<Deal>, o: nat, k: nat, action: Option<DealAction>) {
    match action
    case None => b == a
    case Some(NoDeal) => b == a
    case Some(CandidateCreated(i)) =>
      if |b| == |a| then b == a && i < |a| && a[i].offerId == o && IsOpen(a[i]) && a[i].status != Active
      else
        && |b| == |a| + 1 && b[..|a|] == a && i == |a|
        && b[i].offerId == o && b[i].detectedObs == k && b[i].status == Confirming
    case Some(Confirmed(i, result)) =>
      && OnlyRow(a, b, i) && a[i].offerId == o && (a[i].status == Confirming || a[i].status == AsCandidate)
      && a[i].detectedObs != k && b[i].confirmingObs == Some(k)
      && b[i].status ==
           (match result case ToActive => Active case ToHeldReview => HeldReview case ToRejected(_) => Refused)
    case Some(Refreshed(i)) =>
      && OnlyRow(a, b, i) && a[i].offerId == o && a[i].status == Active
      && b[i].status == Active && b[i].lastConfirmedObs == Some(k)
    case Some(ExpiredActive(i, why)) =>
      && OnlyRow(a, b, i) && a[i].offerId == o && a[i].status == Active
      && b[i].status == Expired && b[i].expireReason == Some(why)
  }

  /** The loop over the rules finds an ACTIVE deal of the offer if there is one. */
  lemma NoRecheckTarget(deals: seq<Deal>, o: nat)
    requires RecheckTarget(deals, o, RULES).None?
    ensures forall rule :: FindOpenDeal(deals, o, rule).Some? ==>
              deals[FindOpenDeal(deals, o, rule).value].status != Active
  {
    assert RULES[1..] == [DeepDiscountClaimed, UsedVsCurrentNew] && RULES[1..][1..] == [UsedVsCurrentNew];
    forall rule | FindOpenDeal(deals, o, rule).Some?
      ensures deals[FindOpenDeal(deals, o, rule).value].status != Active
    {
      assert RecheckTarget(deals, o, RULES[1..]).None? && RecheckTarget(deals, o, RULES[1..][1..]).None?;
      assert rule == RULES[0] || rule == RULES[1..][0] || rule == RULES[1..][1..][0];
    }
  }

  lemma ConfirmMeans(t: Tables, f: Fetch, offer: ParsedOffer, o: nat, k: nat, v: Verdict, i: nat)
    requires o < |t.offers| && t.offers[o].listingId < |t.listings| && offer.price.Some?
    requires i < |t.deals| && t.deals[i].offerId == o && AwaitsConfirmation(t.deals[i], k, f.at)
    ensures var out := ConfirmOutcome(t, f, offer, k, v, i); ActionMeans(t.deals, out.deals, o, k, out.action)
  {
  }

  lemma RecheckMeans(t: Tables, f: Fetch, offer: ParsedOffer, o: nat, k: nat, i: nat)
    requires o < |t.offers| && t.offers[o].listingId < |t.listings| && offer.price.Some?
    requires i < |t.deals| && t.deals[i].offerId == o && t.deals[i].status == Active
    ensures var out := RecheckOutcome(t, f, offer, k, i); ActionMeans(t.deals, out.deals, o, k, out.action)
  {
    hide FreshReference, Pct, GroupOf;
  }

  /** A detected row is a CONFIRMING one of the observed offer. */
  lemma DetectedShape(t: Tables, f: Fetch, offer: ParsedOffer, o: nat, k: nat)
    requires o < |t.offers| && t.offers[o].listingId < |t.listings| && offer.price.Some?
    ensures var row := DetectedDeal(t, f, offer, o, k);
            row.Some? ==> row.value.offerId == o && row.value.detectedObs == k && row.value.status == Confirming
  {
    hide ResolveVerifiedReferenceForOffer, ResolveCurrentNew, ClaimedInflated;
  }

  lemma DetectMeans(t: Tables, f: Fetch, offer: ParsedOffer, o: nat, k: nat)
    requires o < |t.offers| && t.offers[o].listingId < |t.listings| && offer.price.Some? && f.persistedUrl.Some?
    requires forall rule :: FindOpenDeal(t.deals, o, rule).Some? ==>
               t.deals[FindOpenDeal(t.deals, o, rule).value].status != Active
    ensures var out := DetectOutcome(t, f, offer, o, k); ActionMeans(t.deals, out.deals, o, k, out.action)
  {
    hide DetectedDeal;
    var row := DetectedDeal(t, f, offer, o, k);
    DetectedShape(t, f, offer, o, k);
    if row.Some? {
      assert (t.deals + [row.value])[..|t.deals|] == t.deals;
    }
  }

  lemma ActionMeaning(t: Tables, f: Fetch, offer: ParsedOffer, o: nat, k: nat, v: Verdict)
    requires o < |t.offers| && t.offers[o].listingId < |t.listings| && f.persistedUrl.Some?
    ensures var out := DealStep(t, f, offer, o, k, v); ActionMeans(t.deals, out.deals, o, k, out.action)
  {
    hide RecheckOutcome, ConfirmOutcome, DetectOutcome;
    if offer.price.Some? {
      var recheck := if v.quality == Ok then RecheckTarget(t.deals, o, RULES) else None;
      var pending := ConfirmTarget(t.deals, o, k, f.at, RULES);
      if recheck.Some? {
        RecheckMeans(t, f, offer, o, k, recheck.value);
      } else if pending.Some? {
        ConfirmMeans(t, f, offer, o, k, v, pending.value);
      } else if v.quality == Ok {
        NoRecheckTarget(t.deals, o);
        DetectMeans(t, f, offer, o, k);
      }
    }
  }
}
