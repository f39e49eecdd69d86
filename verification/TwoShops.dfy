/** Concrete tables of two shops that sell one rod: the USED lane's confirmation before and
    after the offer becomes NEW, and a CLAIMED deal refreshed from another shop's price. */
module TwoShops {
  import opened Core
  import opened Percent
  import opened Validate
  import opened References
  import opened Detect
  import opened Confirm
  import opened Schema
  import opened DealRules
  import opened Sources
  import opened Steps
  import opened UsedLane
  import Samples

  /** Shop 1's own observation, at 50 dollars. */
  function Own(units: Option<int>, at: Time, ref: string): Observation {
    Observation(0, at, 0, Some(5000), None, Some(15000), true, InStock, units, Some("rod|1"), Ok, ref)
  }

  /** Shop 2 sells the rod NEW at 200 dollars. */
  function Rival(units: Option<int>): Observation {
    Observation(1, 0, 0, Some(20000), None, None, false, InStock, units, Some("rod|1"), Ok, "z")
  }

  function Both(condition: Condition, units: Option<int>, more: seq<Observation>, deals: seq<Deal>): Tables {
    Tables([Seller(1, "first_party", FirstParty), Seller(2, "first_party", FirstParty)],
           [Listing(1, "rod-1", Samples.URL, Some("rod|1"), units, Some(7), AutoGtin),
            Listing(2, "rod-9", Samples.URL, Some("rod|1"), units, Some(7), AutoGtin)],
           [Offer(0, 0, "rod-1|a", condition), Offer(1, 1, "rod-9|new", New)],
           [Own(units, 0, "a"), Rival(units)] + more, deals, [], [], [], {})
  }

  /** Later observations are shop 1's. */
  ghost predicate OwnOnly(more: seq<Observation>) {
    forall j :: 0 <= j < |more| ==> more[j].offerId == 0 && more[j].onClearance
  }

  // ---------------------------------------------------------------- the rival's row

  predicate Asks(q: NewOffersQuery, units: Option<int>) {
    q.variantId == 7 && q.exclude == 0 && q.since <= 0 && (q.pack.Some? ==> q.pack == units)
  }

  function RivalRow(units: Option<int>): NewOfferRow {
    NewOfferRow(2, 0, 20000, 20000, Listing(2, "rod-9", Samples.URL, Some("rod|1"), units, Some(7), AutoGtin))
  }

  lemma RivalIsRecent(condition: Condition, units: Option<int>, more: seq<Observation>, deals: seq<Deal>,
                      q: NewOffersQuery)
    requires OwnOnly(more) && Asks(q, units)
    ensures var t := Both(condition, units, more, deals);
            RecentRow(t, q, 0).None? && RecentRow(t, q, 1) == Some(RivalRow(units))
  {
    var t := Both(condition, units, more, deals);
    assert t.observations[1] == Rival(units) && IsRecent(t.observations[1], 1, q.since);
    assert Qualifies(t, q, 1) && !Qualifies(t, q, 0);
    assert forall k :: 0 <= k < |t.observations| && IsRecent(t.observations[k], 1, q.since) ==> k == 1;
    var row := RecentRow(t, q, 1).value;
    var k :| 0 <= k < |t.observations| && RowOfLatest(t, q, 1, k, row);
    assert k == 1;
  }

  lemma OnlyRival(condition: Condition, units: Option<int>, more: seq<Observation>, deals: seq<Deal>, q: NewOffersQuery)
    requires OwnOnly(more) && Asks(q, units)
    ensures RecentRows(Both(condition, units, more, deals), q, 2) == [RivalRow(units)]
  {
    hide RecentRow;
    RivalIsRecent(condition, units, more, deals, q);
    var t := Both(condition, units, more, deals);
    assert RepresentsRetailer(t, q, 1) && !RepresentsRetailer(t, q, 0);
    assert RecentRows(t, q, 0) == [] && RecentRows(t, q, 1) == [];
  }

  lemma OnlyRowIsCurrent(t: Tables, variantId: int, o: nat, clock: Clock, row: NewOfferRow)
    requires RecentRows(t, NewOffersQuery(variantId, o, clock.now - CURRENT_NEW_MAX_AGE, None), |t.offers|) == [row]
    ensures ResolveCurrentNew(t, Some(variantId), o, clock) == Some(row)
  {
    hide RecentRows, RecentRow, RowOfLatest, Qualifies, IsRecent;
  }

  lemma RivalIsCurrentNew(condition: Condition, units: Option<int>, more: seq<Observation>, deals: seq<Deal>,
                          clock: Clock)
    requires OwnOnly(more) && clock.now <= CURRENT_NEW_MAX_AGE
    ensures ResolveCurrentNew(Both(condition, units, more, deals), Some(7), 0, clock) == Some(RivalRow(units))
  {
    hide RecentRows, OwnOnly, RivalRow, ResolveCurrentNew;
    OnlyRival(condition, units, more, deals, NewOffersQuery(7, 0, clock.now - CURRENT_NEW_MAX_AGE, None));
    OnlyRowIsCurrent(Both(condition, units, more, deals), 7, 0, clock, RivalRow(units));
  }

  // ---------------------------------------------------------------- the USED lane

  function Rod(condition: Condition): ParsedOffer {
    ParsedOffer("rod-1|a", condition, "first_party", FirstParty, Some(5000), None, Some(15000), true, InStock, None)
  }

  function RodPage(condition: Condition): Fetch {
    Fetch(1, "shop", "rod-1", "rod", map[], Product, ConfirmTask, 10 * MINUTE, 0, "b", Some(Samples.URL), "rod|1", 7,
          AutoGtin,
          [Rod(condition)], false, false, Clock(10 * MINUTE, 0))
  }

  /** A USED deal at 50 dollars against the rival's 200. */
  const UsedDeal := Deal(0, UsedVsCurrentNew, UsedLane, Confirming, 0, None, None, ProductPage, 5000, None,
                         CurrentNew, 20000, None, None, 7500, 0, None, None, false, None, None)

  /** The confirming fetch, with the offer stored in the given condition. */
  function SecondLook(condition: Condition): ConfirmContext {
    BuildConfirmContext(Both(condition, None, [Own(None, 10 * MINUTE, "b")], [UsedDeal]), UsedDeal, RodPage(condition),
                        Rod(condition), Verdict(Ok, []))
  }

  /** The USED deal passes every check but the comparison of groups; while its offer is used
      it is rejected for that alone, and once the offer is stored as NEW it is published. */
  lemma OnlyTheGroupDecides(condition: Condition)
    ensures ChecksButGroup(SecondLook(condition)) && SecondLook(condition).discount == 7500
    ensures ConfirmCandidate(SecondLook(condition)) ==
            if GroupOf(condition) == GroupNew then ToActive else ToRejected(ReferenceScopeMismatch)
  {
    hide ResolveCurrentNew, Pct;
    RivalIsCurrentNew(condition, None, [Own(None, 10 * MINUTE, "b")], [UsedDeal], Clock(10 * MINUTE, 0));
    SeventyFivePercent();
  }

  lemma LastIsFive(condition: Condition)
    ensures LastOkPrice(Both(condition, None, [], [UsedDeal]).observations, 0) == Some(5000)
  {
    var observations := Both(condition, None, [], [UsedDeal]).observations;
    assert IsOkOf(observations[0], 0);
  }

  lemma RodIsOk(stored: Condition, shown: Condition)
    ensures VerdictOf(Both(stored, None, [], [UsedDeal]), RodPage(shown), Rod(shown), 0) == Verdict(Ok, [])
  {
    hide MovedFar, LooksLikePack, LastOkPrice;
    LastIsFive(stored);
    UnchangedPriceIsQuiet(5000);
  }

  lemma RodStored(stored: Condition, shown: Condition)
    ensures WithOffer(Both(stored, None, [], [UsedDeal]), RodPage(shown), Rod(shown), 0)
              == (Both(shown, None, [], [UsedDeal]), 0)
  {
    var t := Both(stored, None, [], [UsedDeal]);
    assert FindSeller(t.sellers, 1, "first_party") == Some(0);
    assert FindOffer(t.offers, 0, "rod-1|a") == Some(0);
    assert t.sellers[0 := t.sellers[0].(sellerType := FirstParty)] == t.sellers;
    assert t.offers[0 := t.offers[0].(condition := shown)] == Both(shown, None, [], [UsedDeal]).offers;
  }

  lemma OneUsedDeal(k: nat, at: Time)
    requires k > 0 && at >= MIN_CONFIRM_DELAY
    ensures RecheckTarget([UsedDeal], 0, RULES).None? && ConfirmTarget([UsedDeal], 0, k, at, RULES) == Some(0)
  {
    var deals := [UsedDeal];
    assert RULES[1..] == [DeepDiscountClaimed, UsedVsCurrentNew] && RULES[1..][1..] == [UsedVsCurrentNew];
    assert FindOpenDeal(deals, 0, DeepDiscountNew).None? && FindOpenDeal(deals, 0, DeepDiscountClaimed).None?;
    assert FindOpenDeal(deals, 0, UsedVsCurrentNew) == Some(0);
    assert RecheckTarget(deals, 0, RULES[1..][1..]).None? && RecheckTarget(deals, 0, RULES[1..]).None?;
    assert ConfirmTarget(deals, 0, k, at, RULES[1..][1..]) == Some(0)
        && ConfirmTarget(deals, 0, k, at, RULES[1..]) == Some(0);
  }

  /** The same two cases as whole observations of the stored used offer: shown as used again,
      its deal is rejected; shown as NEW, the offer changes group and the deal is published. */
  lemma SecondFetchDecides(stored: Condition, shown: Condition)
    ensures var u := ObserveStep(Both(stored, None, [], [UsedDeal]), RodPage(shown), Rod(shown));
            |u.deals| == 1 && u.offers[0].condition == shown
            && (GroupOf(shown) != GroupNew ==>
                  u.deals[0].status == Refused && u.deals[0].rejectReason == Some(ReferenceScopeMismatch))
            && (GroupOf(shown) == GroupNew ==> u.deals[0].status == Active)
  {
    hide VerdictOf, BuildConfirmContext, ConfirmCandidate, WithOffer, RecheckTarget, ConfirmTarget;
    var t, f := Both(stored, None, [], [UsedDeal]), RodPage(shown);
    var own := Own(None, 10 * MINUTE, "b");
    RodStored(stored, shown);
    RodIsOk(stored, shown);
    OneUsedDeal(2, 10 * MINUTE);
    OnlyTheGroupDecides(shown);
    assert FindListing(t.listings, 1, "rod-1") == Some(0);
    assert t.observations + [own] == Both(shown, None, [own], [UsedDeal]).observations;
    assert FindReplay(t.observations, 0, "b").None?;
  }

  lemma SeventyFivePercent()
    ensures Pct(5000, 20000) == 7500
  {
  }

  // ---------------------------------------------------------------- the kind of the reference

  lemma {:induction false} NoDays(observations: seq<Observation>, since: int, n: nat)
    requires n <= |observations| && forall j :: 0 <= j < |observations| && observations[j].offerId == 0 ==>
               observations[j].onClearance
    ensures DailyPrices(observations, 0, since, n) == []
  {
    if n > 0 { NoDays(observations, since, n - 1); }
  }

  lemma NoHistory(deals: seq<Deal>, clock: Clock)
    ensures ResolveOwnHistory(Both(New, Some(1), [], deals), 0, clock).None?
  {
    var t := Both(New, Some(1), [], deals);
    NoDays(t.observations, clock.today - OWN_HISTORY_WINDOW_DAYS, |t.observations|);
  }

  lemma RivalIsCross(deals: seq<Deal>, clock: Clock)
    requires clock.now <= CROSS_RETAILER_MAX_AGE
    ensures var t := Both(New, Some(1), [], deals); var r :=
              ResolveCrossRetailer(t, 0, ListingOf(t, 0), GroupNew, clock);
            r.Some? && r.value.price == 20000
  {
    hide RecentRows, RecentRow, ResolveCrossRetailer;
    var t := Both(New, Some(1), [], deals);
    OnlyRival(New, Some(1), [], deals, NewOffersQuery(7, 0, clock.now - CROSS_RETAILER_MAX_AGE, Some(1)));
    ResolveFromRows(t, 0, ListingOf(t, 0), clock);
    OneCandidate(RivalRow(Some(1)));
  }

  lemma OneCandidate(row: NewOfferRow)
    requires row.listing.matchStatus == AutoGtin
    ensures ResolveCrossRetailerNew(CandidatesOf([row])) == Some(CandidateOf(row))
  {
    var candidates := CandidatesOf([row]);
    assert Verifiable(candidates[0].matchStatus);
  }

  lemma RivalIsVerified(deals: seq<Deal>, clock: Clock)
    requires clock.now <= CROSS_RETAILER_MAX_AGE
    ensures var r := ResolveVerifiedReferenceForOffer(Both(New, Some(1), [], deals), 0, clock);
            r.Some? && r.value.kind == CrossRetailerNew && r.value.cents == 20000
  {
    hide ResolveOwnHistory, ResolveCrossRetailer;
    NoHistory(deals, clock);
    RivalIsCross(deals, clock);
  }

  /** A published CLAIMED deal at 50 dollars under a claim of 150. */
  const ClaimedDeal := Deal(0, DeepDiscountClaimed, ClaimedLane, Active, 0, Some(1), Some(1), ProductPage, 5000, None,
                            RetailerClaimed, 15000, Some(15000), None, 6667, 0, Some(0), None, false, None, None)

  /** Refreshed after another shop's verified price appeared, the deal stores that shop's
      price as its reference and still calls it the retailer's claim. */
  lemma ClaimKeepsItsName()
    ensures var t := Both(New, Some(1), [], [ClaimedDeal]);
            var e := RecheckDeal(ClaimedDeal, 2, 5000, None, InStock,
                                 FreshReference(t, ClaimedDeal, Rod(New), Clock(0, 0)), 0);
            e.status == Active && e.reference == 20000 && e.discount == 7500 && e.referenceKind == RetailerClaimed
  {
    hide ResolveVerifiedReferenceForOffer, Pct;
    RivalIsVerified([ClaimedDeal], Clock(0, 0));
    SeventyFivePercent();
  }
}
