/** Confirmation by listing re-observation: what repeated sweeps of a clearance grid do to
    the deal of one unchanged row, whatever else happens to the tables in between. */
module GridSweeps {
  import opened Core
  import opened Percent
  import opened Validate
  import opened Detect
  import opened Confirm
  import opened Schema
  import opened DealRules
  import opened EnrollRules
  import opened Steps
  import opened Lifecycle
  import opened TaskQueue
  import opened GridIngest

  /** The row that every sweep shows again, at price p under claim r. */
  datatype Row = Row(retailerId: int, retailerSlug: string, category: string, bands: Bands, grid: GridItem, p: int,
                     r: int)

  /** When and under which snapshot the grid page was fetched. */
  datatype Visit = Visit(at: Time, dayEt: int, snapshotRef: string, clock: Clock)

  /** A firm in-band price and a claim that saves ten dollars and 50 to 85 percent, on a NEW
      row with a safe URL. */
  ghost predicate GoodRow(g: Row) {
    && IsEligible(g.grid.item) && g.grid.item.price == Some(g.p) && g.grid.item.claimed == Some(g.r)
    && (g.grid.item.conditionHint.None? || g.grid.item.conditionHint == Some(New))
    && g.grid.persistedUrl.Some?
    && g.p > 0 && DeepEnough(g.p, g.r) && Pct(g.p, g.r) <= HELD_REVIEW_UPPER
    && !OutsideBand(g.bands, g.category, g.p)
  }

  function Page(g: Row, v: Visit): GridPage {
    GridPage(g.retailerId, g.retailerSlug, g.category, g.bands, ClearanceListing, v.at, v.dayEt, v.snapshotRef, v.clock)
  }

  function FetchOf(g: Row, v: Visit): Fetch {
    SyntheticFetch(Page(g, v), g.grid)
  }

  function OfferOf(g: Row): ParsedOffer {
    SyntheticOffer(g.grid.item, ClearanceListing)
  }

  function Sku(g: Row): string {
    SyntheticSku(g.grid.item)
  }

  /** One sweep of the row is one listing step and one observation step. */
  lemma SweepIsTwoSteps(t: Tables, g: Row, v: Visit)
    requires GoodRow(g)
    ensures var f := FetchOf(g, v);
            IngestGrid(t, Page(g, v), [g.grid]) == Some(ObserveStep(StoreListingAndTask(t, f), f, OfferOf(g)))
  {
    var f := FetchOf(g, v);
    var t1 := StoreListingAndTask(t, f);
    assert f.offers == [OfferOf(g)];
    assert FindListing(t1.listings, f.retailerId, f.sku).Some?;
    var l := FindListing(t1.listings, f.retailerId, f.sku).value;
    assert RowAllowed(OfferOf(g));
    assert !ObserveOffer(t1, f, OfferOf(g), l).Violation?;
    assert ObserveAll(t1, f, 0) == Some(ObserveStep(t1, f, OfferOf(g))) by {
      assert ObserveAll(ObserveStep(t1, f, OfferOf(g)), f, 1) == Some(ObserveStep(t1, f, OfferOf(g)));
    }
    assert [g.grid][1..] == [];
  }

  function Sweep1(t: Tables, g: Row, v: Visit): Tables
    requires g.grid.persistedUrl.Some?
  {
    ObserveStep(StoreListingAndTask(t, FetchOf(g, v)), FetchOf(g, v), OfferOf(g))
  }

  // ---------------------------------------------------------------- the state between sweeps

  /** Every observation of offer o is this row. */
  ghost predicate History(t: Tables, g: Row, o: nat) {
    forall j :: 0 <= j < |t.observations| && t.observations[j].offerId == o ==>
      && t.observations[j].onClearance && t.observations[j].price == Some(g.p) && t.observations[j].quality == Ok
      && t.observations[j].variantKey == Some(g.grid.variantKey) && t.observations[j].unitCount.None?
  }

  /** Listing l and offer o of the row, as stored. */
  ghost predicate Known(t: Tables, g: Row, l: nat, o: nat) {
    && FindListing(t.listings, g.retailerId, Sku(g)) == Some(l)
    && FindOffer(t.offers, l, OfferOf(g).offerKey) == Some(o)
    && t.offers[o].condition == New
    && History(t, g, o)
  }

  /** The row's only deal. */
  ghost predicate OnlyDeal(t: Tables, g: Row, o: nat, i: nat) {
    && i < |t.deals|
    && (forall j :: 0 <= j < |t.deals| && t.deals[j].offerId == o ==> j == i)
    && (forall j :: 0 <= j < |t.tasks| ==> t.tasks[j].dealId != Some(i))
    && var d := t.deals[i];
       && d.offerId == o && d.rule == DeepDiscountClaimed && d.lane == ClaimedLane && d.detectedVia == ProductPage
       && d.price == g.p && d.reference == g.r && d.discount == Pct(g.p, g.r)
       && (d.status == Confirming || d.status == Active)
       && d.detectedObs < |t.observations| && t.observations[d.detectedObs].offerId == o
  }

  ghost predicate Settled(t: Tables, g: Row, l: nat, o: nat, i: nat) {
    Known(t, g, l, o) && OnlyDeal(t, g, o, i)
  }

  // ---------------------------------------------------------------- no verified reference

  lemma {:induction false} NoDailyPrices(t: Tables, g: Row, o: nat, since: int, n: nat)
    requires History(t, g, o) && n <= |t.observations|
    ensures DailyPrices(t.observations, o, since, n) == []
  {
    if n > 0 { NoDailyPrices(t, g, o, since, n - 1); }
  }

  /** R1 and R2 never appear: every observation is on clearance, and a grid row has no pack count. */
  lemma NoVerifiedReference(t: Tables, g: Row, o: nat, clock: Clock)
    requires History(t, g, o) && o < |t.offers| && t.offers[o].listingId < |t.listings|
    requires ListingOf(t, o).unitCount.None?
    ensures ResolveVerifiedReferenceForOffer(t, o, clock).None?
  {
    NoDailyPrices(t, g, o, clock.today - OWN_HISTORY_WINDOW_DAYS, |t.observations|);
  }

  /** The row is always an OK observation. */
  lemma RowIsOk(t: Tables, g: Row, v: Visit, o: nat)
    requires GoodRow(g) && History(t, g, o)
    ensures VerdictOf(t, FetchOf(g, v), OfferOf(g), o) == Verdict(Ok, [])
  {
    UnchangedPriceIsQuiet(g.p);
    assert LastOkPrice(t.observations, o).Some? ==> LastOkPrice(t.observations, o) == Some(g.p);
  }

  // ---------------------------------------------------------------- one sweep, on the stored row

  /** The tables just after the row was stored, before its deals are looked at. */
  ghost predicate Stored(t: Tables, g: Row, v: Visit, o: nat, k: nat) {
    && o < |t.offers| && t.offers[o].listingId < |t.listings| && t.offers[o].condition == New
    && ListingOf(t, o).unitCount.None? && ListingOf(t, o).variantKey == Some(g.grid.variantKey)
    && History(t, g, o) && |t.observations| == k + 1 && t.observations[k].offerId == o
  }

  lemma FindOpenOnly(deals: seq<Deal>, o: nat, i: nat, rule: Rule)
    requires i < |deals| && IsOpen(deals[i]) && deals[i].offerId == o
    requires forall j :: 0 <= j < |deals| && deals[j].offerId == o ==> j == i
    ensures FindOpenDeal(deals, o, rule) == if rule == deals[i].rule then Some(i) else None
  {
  }

  /** The loops over the rules come down to the row's only deal. */
  lemma Targets(deals: seq<Deal>, o: nat, i: nat, k: nat, at: Time)
    requires i < |deals| && deals[i].offerId == o && deals[i].rule == DeepDiscountClaimed
    requires deals[i].status == Confirming || deals[i].status == Active
    requires forall j :: 0 <= j < |deals| && deals[j].offerId == o ==> j == i
    ensures RecheckTarget(deals, o, RULES) == if deals[i].status == Active then Some(i) else None
    ensures ConfirmTarget(deals, o, k, at, RULES) == if AwaitsConfirmation(deals[i], k, at) then Some(i) else None
  {
    forall rule ensures FindOpenDeal(deals, o, rule) == if rule == DeepDiscountClaimed then Some(i) else None {
      FindOpenOnly(deals, o, i, rule);
    }
    assert RULES[1..] == [DeepDiscountClaimed, UsedVsCurrentNew] && RULES[1..][1..] == [UsedVsCurrentNew];
    assert RecheckTarget(deals, o, RULES[1..][1..]).None?;
    assert ConfirmTarget(deals, o, k, at, RULES[1..][1..]).None?;
    assert RecheckTarget(deals, o, RULES[1..]) == if deals[i].status == Active then Some(i) else None;
    assert ConfirmTarget(deals, o, k, at, RULES[1..]) == if AwaitsConfirmation(deals[i], k, at) then Some(i) else None;
  }

  lemma NoTargets(deals: seq<Deal>, o: nat, k: nat, at: Time)
    requires forall j :: 0 <= j < |deals| ==> deals[j].offerId != o
    ensures RecheckTarget(deals, o, RULES).None? && ConfirmTarget(deals, o, k, at, RULES).None?
  {
    assert RULES[1..] == [DeepDiscountClaimed, UsedVsCurrentNew] && RULES[1..][1..] == [UsedVsCurrentNew];
    assert RecheckTarget(deals, o, RULES[1..][1..]).None? && RecheckTarget(deals, o, RULES[1..]).None?;
    assert ConfirmTarget(deals, o, k, at, RULES[1..][1..]).None? && ConfirmTarget(deals, o, k, at, RULES[1..]).None?;
  }

  lemma DetectsRow(t: Tables, g: Row, v: Visit, o: nat, k: nat)
    requires GoodRow(g) && Stored(t, g, v, o, k)
    ensures var d := DetectedDeal(t, FetchOf(g, v), OfferOf(g), o, k);
            d.Some? && d.value.rule == DeepDiscountClaimed && d.value.lane == ClaimedLane
                && d.value.detectedVia == ProductPage
            && d.value.price == g.p && d.value.reference == g.r && d.value.discount == Pct(g.p, g.r)
            && d.value.status == Confirming && d.value.detectedObs == k && d.value.detectedAt == v.at
            && d.value.offerId == o
  {
    NoVerifiedReference(t, g, o, v.clock);
  }

  lemma ConfirmsRow(t: Tables, g: Row, v: Visit, o: nat, k: nat, d: Deal)
    requires GoodRow(g) && Stored(t, g, v, o, k)
    requires d.offerId == o && d.lane == ClaimedLane && d.detectedVia == ProductPage && d.price == g.p
    requires d.detectedObs < |t.observations| && t.observations[d.detectedObs].offerId == o
    requires v.at - d.detectedAt >= MIN_CONFIRM_DELAY
    ensures var c := BuildConfirmContext(t, d, FetchOf(g, v), OfferOf(g), Verdict(Ok, []));
            ConfirmCandidate(c) == ToActive && c.discount == Pct(g.p, g.r) && c.reference == Some(g.r)
                && c.confirmingPrice == g.p
  {
    NoVerifiedReference(t, g, o, v.clock);
    ConfirmExactly(BuildConfirmContext(t, d, FetchOf(g, v), OfferOf(g), Verdict(Ok, [])));
  }

  lemma RefreshesRow(t: Tables, g: Row, v: Visit, o: nat, k: nat, d: Deal)
    requires GoodRow(g) && Stored(t, g, v, o, k)
    requires d.offerId == o && d.rule == DeepDiscountClaimed && d.lane == ClaimedLane && d.price == g.p
    requires d.status == Active
    ensures var offer := OfferOf(g);
            var e := RecheckDeal(d, k, ComparePrice(d.rule, offer), LandedPrice(offer).1, offer.availability,
                                 FreshReference(t, d, offer, v.clock), v.clock.now);
            e == d.(landed := None, discount := Pct(g.p, g.r), reference := g.r, lastConfirmedObs := Some(k))
  {
    NoVerifiedReference(t, g, o, v.clock);
  }

  // ---------------------------------------------------------------- one sweep, from any tables

  /** The tables between the observation and the deal step of a sweep. */
  function Midway(t: Tables, g: Row, v: Visit, l: nat): (Tables, nat)
    requires g.grid.persistedUrl.Some?
  {
    var t1 := StoreListingAndTask(t, FetchOf(g, v));
    var (t2, o) := WithOffer(t1, FetchOf(g, v), OfferOf(g), l);
    (t2.(observations := t.observations + [ObservationRow(FetchOf(g, v), OfferOf(g), o, Ok)]), o)
  }

  /** A row never seen before, or the stored one. */
  ghost predicate Ready(t: Tables, g: Row, v: Visit, l: nat, o: nat) {
    || (Known(t, g, l, o) && FindReplay(t.observations, o, v.snapshotRef).None?)
    || (Fresh(t, g) && l == |t.listings| && o == |t.offers|)
  }

  /** No listing row for it yet; nothing can refer to its offer. */
  ghost predicate Fresh(t: Tables, g: Row) {
    && FindListing(t.listings, g.retailerId, Sku(g)).None?
    && (forall j :: 0 <= j < |t.offers| ==> t.offers[j].listingId < |t.listings|)
    && (forall j :: 0 <= j < |t.observations| ==> t.observations[j].offerId < |t.offers|)
    && (forall j :: 0 <= j < |t.deals| ==> t.deals[j].offerId < |t.offers|)
    && (forall j :: 0 <= j < |t.tasks| && t.tasks[j].dealId.Some? ==> t.tasks[j].dealId.value < |t.deals|)
  }

  lemma ListingStored(t: Tables, g: Row, v: Visit, l: nat, o: nat)
    requires GoodRow(g) && Ready(t, g, v, l, o)
    ensures var t1 := StoreListingAndTask(t, FetchOf(g, v));
            && FindListing(t1.listings, g.retailerId, Sku(g)) == Some(l)
            && t1.listings[l].unitCount.None? && t1.listings[l].variantKey == Some(g.grid.variantKey)
            && t1 == t.(listings := t1.listings)
  {
    var t1 := StoreListingAndTask(t, FetchOf(g, v));
    var m := FindListing(t1.listings, g.retailerId, Sku(g));
    assert t1.listings[l].retailerId == g.retailerId && t1.listings[l].sku == Sku(g);
    assert forall j :: 0 <= j < l ==>
        t1.listings[j].retailerId == t.listings[j].retailerId && t1.listings[j].sku == t.listings[j].sku;
  }

  lemma OfferStored(t: Tables, g: Row, v: Visit, l: nat, o: nat)
    requires GoodRow(g) && Ready(t, g, v, l, o)
    ensures var t1 := StoreListingAndTask(t, FetchOf(g, v));
            var (t2, o') := WithOffer(t1, FetchOf(g, v), OfferOf(g), l);
            o' == o && t2.offers[o].condition == New && FindOffer(t2.offers, l, OfferOf(g).offerKey) == Some(o)
  {
    ListingStored(t, g, v, l, o);
    var t1 := StoreListingAndTask(t, FetchOf(g, v));
    var (t2, o') := WithOffer(t1, FetchOf(g, v), OfferOf(g), l);
    if Fresh(t, g) {
      assert FindOffer(t.offers, l, OfferOf(g).offerKey).None?;
    }
    assert forall j :: 0 <= j < o ==>
        t2.offers[j].listingId == t.offers[j].listingId && t2.offers[j].offerKey == t.offers[j].offerKey;
    var m := FindOffer(t2.offers, l, OfferOf(g).offerKey);
    assert m.Some?;
  }

  /** A sweep is its deal step on the midway tables. */
  lemma SweepShape(t: Tables, g: Row, v: Visit, l: nat, o: nat)
    requires GoodRow(g) && Ready(t, g, v, l, o)
    ensures var (mid, o') := Midway(t, g, v, l);
            && o' == o && Stored(mid, g, v, o, |t.observations|) && Known(mid, g, l, o)
            && mid.deals == t.deals && mid.tasks == t.tasks && mid.observations[..|t.observations|] == t.observations
            && var out := DealStep(mid, FetchOf(g, v), OfferOf(g), o, |t.observations|, Verdict(Ok, []));
               Sweep1(t, g, v) == mid.(deals := out.deals, tasks := out.tasks)
  {
    hide DealStep, VerdictOf;
    ListingStored(t, g, v, l, o);
    OfferStored(t, g, v, l, o);
    var t1 := StoreListingAndTask(t, FetchOf(g, v));
    var (mid, o') := Midway(t, g, v, l);
    assert History(t, g, o);
    RowIsOk(t1, g, v, o);
    HistoryGrows(t, mid, g, v, o);
    if Fresh(t, g) {
      assert FindReplay(t.observations, o, v.snapshotRef).None?;
    }
  }

  lemma HistoryGrows(t: Tables, mid: Tables, g: Row, v: Visit, o: nat)
    requires GoodRow(g) && History(t, g, o)
    requires mid.observations == t.observations + [ObservationRow(FetchOf(g, v), OfferOf(g), o, Ok)]
    ensures History(mid, g, o)
  {
  }

  // ---------------------------------------------------------------- the four kinds of sweep

  /** The first sweep creates the CONFIRMING deal and touches no other row. */
  lemma FirstSweep(t: Tables, g: Row, v: Visit)
    requires GoodRow(g) && Fresh(t, g)
    ensures var u := Sweep1(t, g, v); var i := |t.deals|;
            && Settled(u, g, |t.listings|, |t.offers|, i) && u.deals[..i] == t.deals
            && u.deals[i].status == Confirming && u.deals[i].detectedAt == v.at
  {
    hide Sweep1, Midway, DetectedDeal, RecheckOutcome, ConfirmOutcome, RecheckTarget, ConfirmTarget;
    var l, o, k := |t.listings|, |t.offers|, |t.observations|;
    SweepShape(t, g, v, l, o);
    var (mid, _) := Midway(t, g, v, l);
    DetectsRow(mid, g, v, o, k);
    NoTargets(t.deals, o, k, v.at);
    var d := DetectedDeal(mid, FetchOf(g, v), OfferOf(g), o, k).value;
    assert FindOpenDeal(t.deals, o, d.rule).None?;
    var u := Sweep1(t, g, v);
    assert u.deals == t.deals + [d] && u.tasks == t.tasks;
    assert Known(u, g, l, o);
  }

  /** A sweep less than ten minutes after the detection changes no deal row at all. */
  lemma EarlySweep(t: Tables, g: Row, v: Visit, l: nat, o: nat, i: nat)
    requires GoodRow(g) && Settled(t, g, l, o, i) && FindReplay(t.observations, o, v.snapshotRef).None?
    requires t.deals[i].status == Confirming && v.at - t.deals[i].detectedAt < MIN_CONFIRM_DELAY
    ensures var u := Sweep1(t, g, v); Settled(u, g, l, o, i) && u.deals == t.deals
  {
    hide Sweep1, Midway, DetectedDeal, RecheckOutcome, ConfirmOutcome, RecheckTarget, ConfirmTarget;
    var k := |t.observations|;
    SweepShape(t, g, v, l, o);
    var (mid, _) := Midway(t, g, v, l);
    var d := t.deals[i].detectedObs;
    assert mid.observations[d] == mid.observations[..k][d];
    DetectsRow(mid, g, v, o, k);
    Targets(t.deals, o, i, k, v.at);
    FindOpenOnly(t.deals, o, i, DeepDiscountClaimed);
    var u := Sweep1(t, g, v);
    assert u.deals == t.deals && u.tasks == t.tasks;
    assert Known(u, g, l, o);
  }

  /** The first sweep at least ten minutes after the detection publishes the deal. */
  lemma ConfirmingSweep(t: Tables, g: Row, v: Visit, l: nat, o: nat, i: nat)
    requires GoodRow(g) && Settled(t, g, l, o, i) && FindReplay(t.observations, o, v.snapshotRef).None?
    requires t.deals[i].status == Confirming && v.at - t.deals[i].detectedAt >= MIN_CONFIRM_DELAY
    ensures var u := Sweep1(t, g, v);
            Settled(u, g, l, o, i) && OnlyRow(t.deals, u.deals, i) && u.deals[i].status == Active
            && u.deals[i].detectedAt == t.deals[i].detectedAt
  {
    hide Sweep1, Midway, BuildConfirmContext, ConfirmCandidate, RecheckOutcome, DetectOutcome, RecheckTarget,
        ConfirmTarget;
    var k := |t.observations|;
    SweepShape(t, g, v, l, o);
    var (mid, _) := Midway(t, g, v, l);
    var d := t.deals[i].detectedObs;
    assert mid.observations[d] == mid.observations[..k][d];
    Targets(t.deals, o, i, k, v.at);
    ConfirmsRow(mid, g, v, o, k, t.deals[i]);
    var u := Sweep1(t, g, v);
    assert u.tasks == t.tasks && OnlyRow(t.deals, u.deals, i);
    assert Known(u, g, l, o);
  }

  /** Every later sweep refreshes it to the same price, reference and discount. */
  lemma ActiveSweep(t: Tables, g: Row, v: Visit, l: nat, o: nat, i: nat)
    requires GoodRow(g) && Settled(t, g, l, o, i) && FindReplay(t.observations, o, v.snapshotRef).None?
    requires t.deals[i].status == Active
    ensures var u := Sweep1(t, g, v);
            Settled(u, g, l, o, i) && OnlyRow(t.deals, u.deals, i) && u.deals[i].status == Active
            && u.deals[i].detectedAt == t.deals[i].detectedAt
  {
    hide Sweep1, Midway, FreshReference, RecheckDeal, ConfirmOutcome, DetectOutcome, RecheckTarget, ConfirmTarget;
    var k := |t.observations|;
    SweepShape(t, g, v, l, o);
    var (mid, _) := Midway(t, g, v, l);
    var d := t.deals[i].detectedObs;
    assert mid.observations[d] == mid.observations[..k][d];
    Targets(t.deals, o, i, k, v.at);
    RefreshesRow(mid, g, v, o, k, t.deals[i]);
    var u := Sweep1(t, g, v);
    assert u.tasks == t.tasks && OnlyRow(t.deals, u.deals, i);
    assert Known(u, g, l, o);
  }

  /** A page already recorded for the row is a replay and changes no deal row. */
  lemma ReplayedSweep(t: Tables, g: Row, v: Visit, l: nat, o: nat, i: nat)
    requires GoodRow(g) && Settled(t, g, l, o, i) && FindReplay(t.observations, o, v.snapshotRef).Some?
    ensures var u := Sweep1(t, g, v); Settled(u, g, l, o, i) && u.deals == t.deals && u.observations == t.observations
  {
    var f := FetchOf(g, v);
    var t1 := StoreListingAndTask(t, f);
    KnownAfterListing(t, g, v, l, o);
    var (t2, o') := WithOffer(t1, f, OfferOf(g), l);
    var u := Sweep1(t, g, v);
    assert o' == o && u == t2;
    assert forall j :: 0 <= j < o ==>
        t2.offers[j].listingId == t.offers[j].listingId && t2.offers[j].offerKey == t.offers[j].offerKey;
    assert Known(u, g, l, o);
  }

  lemma KnownAfterListing(t: Tables, g: Row, v: Visit, l: nat, o: nat)
    requires GoodRow(g) && Known(t, g, l, o)
    ensures var t1 := StoreListingAndTask(t, FetchOf(g, v));
            FindListing(t1.listings, g.retailerId, Sku(g)) == Some(l) && t1 == t.(listings := t1.listings)
  {
    var t1 := StoreListingAndTask(t, FetchOf(g, v));
    assert t1.listings[l].retailerId == g.retailerId && t1.listings[l].sku == Sku(g);
    assert forall j :: 0 <= j < l ==>
        t1.listings[j].retailerId == t.listings[j].retailerId && t1.listings[j].sku == t.listings[j].sku;
  }

  // ---------------------------------------------------------------- everything else that may happen in between

  /** A step that is not about this listing, and, for the staleness sweep, one within its
      window of the last sweep. */
  predicate Quiet(t: Tables, g: Row, o: nat, step: Step) {
    match step
    case StoreListing(f) => f.retailerId != g.retailerId || f.sku != Sku(g)
    case Observe(f, _) => f.retailerId != g.retailerId || f.sku != Sku(g)
    case ExpireStale(now, hours) => HasRecentOk(t.observations, o, now - hours * HOUR)
    case _ => true
  }

  lemma ForeignObserve(t: Tables, g: Row, f: Fetch, offer: ParsedOffer, l: nat, o: nat, i: nat)
    requires Settled(t, g, l, o, i) && Quiet(t, g, o, Observe(f, offer))
    ensures var u := ObserveStep(t, f, offer); Settled(u, g, l, o, i) && u.deals[i] == t.deals[i]
  {
    hide DealStep, VerdictOf;
    var m := FindListing(t.listings, f.retailerId, f.sku);
    if m.Some? && f.persistedUrl.Some? {
      assert m.value != l;
      var (t1, q) := WithOffer(t, f, offer, m.value);
      assert t1.offers[q].listingId == m.value;
      assert t.offers[o].listingId == l && t1.offers[o] == t.offers[o];
      assert q != o;
      assert forall j :: 0 <= j < o ==>
          t1.offers[j].listingId == t.offers[j].listingId && t1.offers[j].offerKey == t.offers[j].offerKey;
      assert FindOffer(t1.offers, l, OfferOf(g).offerKey) == Some(o);
      assert Settled(t1, g, l, o, i);
      var v := VerdictOf(t, f, offer, q);
      ForeignStored(t1, g, f, offer, l, o, i, q, v);
    }
  }

  lemma ForeignStored(t: Tables, g: Row, f: Fetch, offer: ParsedOffer, l: nat, o: nat, i: nat, q: nat, v: Verdict)
    requires Settled(t, g, l, o, i) && q != o && q < |t.offers| && t.offers[q].listingId < |t.listings|
    requires f.persistedUrl.Some?
    ensures var t2 := t.(observations := t.observations + [ObservationRow(f, offer, q, v.quality)]);
            var out := DealStep(t2, f, offer, q, |t.observations|, v);
            var u := t2.(deals := out.deals, tasks := out.tasks);
            Settled(u, g, l, o, i) && u.deals[i] == t.deals[i]
  {
    var t2 := t.(observations := t.observations + [ObservationRow(f, offer, q, v.quality)]);
    var k := |t.observations|;
    var out := DealStep(t2, f, offer, q, k, v);
    ActionMeaning(t2, f, offer, q, k, v);
    ForeignDeals(t.deals, out.deals, q, k, out.action, o, i);
    QueuedForOwnDeal(t2, f, offer, q, k, v);
    var u := t2.(deals := out.deals, tasks := out.tasks);
    assert Known(u, g, l, o);
  }

  lemma ForeignDeals(a: seq<Deal>, b: seq<Deal>, q: nat, k: nat, action: Option<DealAction>, o: nat, i: nat)
    requires ActionMeans(a, b, q, k, action) && q != o
    requires i < |a| && a[i].offerId == o && forall j :: 0 <= j < |a| && a[j].offerId == o ==> j == i
    ensures i < |b| && b[i] == a[i] && forall j :: 0 <= j < |b| && b[j].offerId == o ==> j == i
  {
    match action
    case Some(CandidateCreated(n)) =>
      if |b| != |a| { assert forall j :: 0 <= j < |a| ==> b[j] == b[..|a|][j]; }
    case _ =>
  }

  lemma ForeignListing(t: Tables, g: Row, f: Fetch, l: nat, o: nat, i: nat)
    requires Settled(t, g, l, o, i) && Quiet(t, g, o, StoreListing(f)) && f.persistedUrl.Some?
    ensures var u := StoreListingAndTask(t, f); Settled(u, g, l, o, i) && u.deals[i] == t.deals[i]
  {
    var u := StoreListingAndTask(t, f);
    assert u.listings[l].retailerId == g.retailerId && u.listings[l].sku == Sku(g);
    assert forall j :: 0 <= j < l ==>
        u.listings[j].retailerId == t.listings[j].retailerId && u.listings[j].sku == t.listings[j].sku;
    assert Known(u, g, l, o);
  }

  /** Rewriting tasks, other deals, tracked URLs or hits leaves the row settled. */
  lemma Frame(t: Tables, u: Tables, g: Row, l: nat, o: nat, i: nat)
    requires Settled(t, g, l, o, i)
    requires u.listings == t.listings && u.offers == t.offers && u.observations == t.observations
    requires |u.deals| == |t.deals| && u.deals[i] == t.deals[i]
    requires forall j :: 0 <= j < |t.deals| ==> u.deals[j].offerId == t.deals[j].offerId
    requires forall j :: 0 <= j < |u.tasks| ==> u.tasks[j].dealId != Some(i)
    ensures Settled(u, g, l, o, i)
  {
    assert Known(u, g, l, o);
  }

  /** No task names the deal, so no missed deadline can reject it. */
  lemma DeadlinesKeep(t: Tables, g: Row, retailerId: int, now: Time, l: nat, o: nat, i: nat)
    requires Settled(t, g, l, o, i)
    ensures var u := Apply(t, RefuseOverdue(retailerId, now)); Settled(u, g, l, o, i) && u.deals[i] == t.deals[i]
  {
    assert !DeadlineMissed(t.tasks, retailerId, now, i);
    Frame(t, Apply(t, RefuseOverdue(retailerId, now)), g, l, o, i);
  }

  lemma StalenessKeeps(t: Tables, g: Row, now: Time, hours: int, l: nat, o: nat, i: nat)
    requires Settled(t, g, l, o, i) && HasRecentOk(t.observations, o, now - hours * HOUR)
    ensures var u := Apply(t, ExpireStale(now, hours)); Settled(u, g, l, o, i) && u.deals[i] == t.deals[i]
  {
    Frame(t, Apply(t, ExpireStale(now, hours)), g, l, o, i);
  }

  lemma OnlyDeals(t: Tables, g: Row, l: nat, o: nat, i: nat)
    requires Settled(t, g, l, o, i)
    ensures i < |t.deals| && forall j :: 0 <= j < |t.tasks| ==> t.tasks[j].dealId != Some(i)
  {
  }

  lemma EnrollKeeps(t: Tables, g: Row, sweep: Sweep, row: GridRow, l: nat, o: nat, i: nat)
    requires Settled(t, g, l, o, i)
    ensures var u := Apply(t, Enroll(sweep, row)); Settled(u, g, l, o, i) && u.deals[i] == t.deals[i]
  {
    hide Settled;
    OnlyDeals(t, g, l, o, i);
    Frame(t, Apply(t, Enroll(sweep, row)), g, l, o, i);
  }

  lemma OtherKeeps(t: Tables, g: Row, step: Step, l: nat, o: nat, i: nat)
    requires Settled(t, g, l, o, i) && Quiet(t, g, o, step)
    ensures var u := Apply(t, step); Settled(u, g, l, o, i) && u.deals[i] == t.deals[i]
  {
    hide ObserveStep, EnrollItem, StoreListingAndTask, ExpireStaleDeals, RefuseOverdueDeals;
    match step
    case StoreListing(f) => if f.persistedUrl.Some? { ForeignListing(t, g, f, l, o, i); }
    case Observe(f, offer) => ForeignObserve(t, g, f, offer, l, o, i);
    case RefuseOverdue(retailerId, now) => DeadlinesKeep(t, g, retailerId, now, l, o, i);
    case ExpireStale(now, hours) => StalenessKeeps(t, g, now, hours, l, o, i);
    case Lease(n) => Frame(t, t.(tasks := LeaseTask(t.tasks, n)), g, l, o, i);
    case Finish(n, status) => Frame(t, t.(tasks := FinishTask(t.tasks, n, status)), g, l, o, i);
    case Enroll(sweep, row) => EnrollKeeps(t, g, sweep, row, l, o, i);
    case DisableStale(retailerId, now) => Frame(t, t.(tracked := DisableStaleUrls(t, retailerId, now)), g, l, o, i);
  }

  /** In tables that satisfy the run invariants, a row without a listing is fresh. */
  lemma FreshIfUnknown(t: Tables, g: Row)
    requires DealsOk(t) && TasksOk(t) && FindListing(t.listings, g.retailerId, Sku(g)).None?
    ensures Fresh(t, g)
  {
    forall j | 0 <= j < |t.observations| ensures t.observations[j].offerId < |t.offers| {
      assert ObservationOk(t, t.observations[j]);
    }
    forall j | 0 <= j < |t.deals| ensures t.deals[j].offerId < |t.offers| {
      assert DealOk(t, t.deals[j]);
    }
    forall j | 0 <= j < |t.tasks| && t.tasks[j].dealId.Some? ensures t.tasks[j].dealId.value < |t.deals| {
      assert TaskOk(t, t.tasks[j]);
    }
  }
}
