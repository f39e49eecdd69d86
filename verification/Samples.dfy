/** Concrete runs: inputs at which the code does less than its comments promise, and inputs
    that meet the conditions of the theorems. */
module Samples {
  import opened Core
  import opened Percent
  import opened Validate
  import opened References
  import opened Detect
  import opened Confirm
  import opened Schema
  import opened DealRules
  import opened Steps
  import opened Runs
  import opened GridSweeps
  import opened Stranded

  const URL := "https://shop.example/p/reel"

  // ---------------------------------------------------------------- one reel on clearance

  /** A reel on its product page, on clearance under a claim of 150 dollars. */
  function Reel(price: int): ParsedOffer {
    ParsedOffer("reel-1|new", New, "first_party", FirstParty, Some(price), None, Some(15000), true, InStock, None)
  }

  function ReelPage(price: int, at: Time, ref: string): Fetch {
    Fetch(1, "shop", "reel-1", "reel", map[], Product, EnrollTask, at, 0, ref, Some(URL), "reel|1", 7, AutoCreated,
          [Reel(price)], false, false, Clock(at, 0))
  }

  function Seen(price: int, at: Time, ref: string): Observation {
    Observation(0, at, 0, Some(price), None, Some(15000), true, InStock, None, Some("reel|1"), Ok, ref)
  }

  /** The tables of a shop with this reel only. */
  function Shop(observations: seq<Observation>, deals: seq<Deal>, tasks: seq<Task>): Tables {
    Tables([Seller(1, "first_party", FirstParty)],
           [Listing(1, "reel-1", URL, Some("reel|1"), None, Some(7), AutoCreated)],
           [Offer(0, 0, "reel-1|new", New)], observations, deals, tasks, [], [], {})
  }

  ghost predicate AllSeen(observations: seq<Observation>) {
    forall j :: 0 <= j < |observations| ==>
      && observations[j].offerId == 0 && observations[j].onClearance && observations[j].quality == Ok
      && observations[j].price.Some?
      && observations[j].variantKey == Some("reel|1") && observations[j].unitCount.None?
  }

  /** The latest price, later than all others. */
  ghost predicate LatestIs(observations: seq<Observation>, price: int, at: Time) {
    && observations != [] && observations[|observations| - 1].price == Some(price)
    && observations[|observations| - 1].at == at
    && forall j :: 0 <= j < |observations| - 1 ==> observations[j].at < at
  }

  lemma {:induction false} NoDays(observations: seq<Observation>, since: int, n: nat)
    requires AllSeen(observations) && n <= |observations|
    ensures DailyPrices(observations, 0, since, n) == []
  {
    if n > 0 { NoDays(observations, since, n - 1); }
  }

  lemma NoVerified(observations: seq<Observation>, deals: seq<Deal>, tasks: seq<Task>, clock: Clock)
    requires AllSeen(observations)
    ensures ResolveVerifiedReferenceForOffer(Shop(observations, deals, tasks), 0, clock).None?
  {
    NoDays(observations, clock.today - OWN_HISTORY_WINDOW_DAYS, |observations|);
  }

  lemma RatioIs(price: int, last: int)
    requires last > 0 && 100 * price == 45 * last
    ensures price as real / last as real == 0.45
  {
    var x := last as real;
    assert price as real == 0.45 * x;
    assert (0.45 * x) / x == 0.45;
  }

  lemma NotNear(n: int)
    requires n >= 3
    ensures !Near(0.45, 1.0 / n as real) && !Near(0.45, n as real)
  {
    assert 1.0 / n as real <= 1.0 / 3.0;
  }

  /** 45 % of the last price is within the move guard and like no pack count. */
  lemma FallsQuietly(price: int, last: int)
    requires last > 0 && 100 * price == 45 * last
    ensures !MovedFar(price, last) && !LooksLikePack(price, last, None)
  {
    RatioIs(price, last);
    forall i | 0 <= i < |GUESSED_PACKS|
      ensures !Near(0.45, 1.0 / GUESSED_PACKS[i] as real) && !Near(0.45, GUESSED_PACKS[i] as real)
    {
      NotNear(GUESSED_PACKS[i]);
    }
  }

  lemma LatestMeans(observations: seq<Observation>, o: nat, j: nat, n: nat)
    requires IsLatestOk(observations, o, j) && n < |observations| && IsOkOf(observations[n], o)
    ensures observations[n].at <= observations[j].at
  {
  }

  lemma LastPrice(observations: seq<Observation>, last: int, at: Time)
    requires AllSeen(observations) && LatestIs(observations, last, at)
    ensures LastOkPrice(observations, 0) == Some(last)
  {
    var n := |observations| - 1;
    assert IsOkOf(observations[n], 0);
    var j :| 0 <= j < |observations| && IsLatestOk(observations, 0, j)
        && observations[j].price == LastOkPrice(observations, 0);
    LatestMeans(observations, 0, j, n);
    assert j == n;
  }

  ghost predicate QuietPrice(observations: seq<Observation>, price: int) {
    price > 0
    && (observations == []
        || exists last, at :: last > 0 && LatestIs(observations, last, at)
             && (price == last || 100 * price == 45 * last))
  }

  lemma SeenIsOk(observations: seq<Observation>, deals: seq<Deal>, tasks: seq<Task>, price: int, at: Time, ref: string)
    requires AllSeen(observations) && QuietPrice(observations, price) && price < 15000
    ensures VerdictOf(Shop(observations, deals, tasks), ReelPage(price, at, ref), Reel(price), 0) == Verdict(Ok, [])
  {
    hide MovedFar, LooksLikePack, LastOkPrice;
    if observations != [] {
      var last, when :| last > 0 && LatestIs(observations, last, when) && (price == last || 100 * price == 45 * last);
      if price == last { UnchangedPriceIsQuiet(price); } else { FallsQuietly(price, last); }
      LastPrice(observations, last, when);
    }
  }

  /** Observing the reel stores the row and takes the deal step. */
  lemma ShopStep(observations: seq<Observation>, deals: seq<Deal>, tasks: seq<Task>, price: int, at: Time, ref: string)
    requires AllSeen(observations) && QuietPrice(observations, price) && price < 15000
    requires FindReplay(observations, 0, ref).None?
    ensures var u := Shop(observations + [Seen(price, at, ref)], deals, tasks);
            var out := DealStep(u, ReelPage(price, at, ref), Reel(price), 0, |observations|, Verdict(Ok, []));
            ObserveStep(Shop(observations, deals, tasks), ReelPage(price, at, ref), Reel(price))
              == u.(deals := out.deals, tasks := out.tasks)
  {
    hide DealStep, VerdictOf;
    var t, f := Shop(observations, deals, tasks), ReelPage(price, at, ref);
    SeenIsOk(observations, deals, tasks, price, at, ref);
    assert FindListing(t.listings, 1, "reel-1") == Some(0);
    assert FindSeller(t.sellers, 1, "first_party") == Some(0);
    assert FindOffer(t.offers, 0, "reel-1|new") == Some(0);
    assert t.sellers[0 := t.sellers[0].(sellerType := FirstParty)] == t.sellers;
    assert t.offers[0 := t.offers[0].(condition := New)] == t.offers;
    assert WithOffer(t, f, Reel(price), 0) == (t, 0);
  }

  // ---------------------------------------------------------------- the reel's deal

  function Detected(price: int, at: Time, inflated: Option<bool>): Deal {
    Deal(0, DeepDiscountClaimed, ClaimedLane, Confirming, 0, None, None, ProductPage, price, None,
         RetailerClaimed, 15000, Some(15000), inflated, Pct(price, 15000), at, None, None, false, None, None)
  }

  function ConfirmTaskFor(at: Time): Task {
    Task(1, ConfirmTask, 10, URL, "reel", Some(0), ConfirmKey(0), at + MIN_CONFIRM_DELAY, Some(at + CONFIRM_DEADLINE),
         Queued)
  }

  lemma NoDealYet(o: nat, k: nat, at: Time)
    ensures RecheckTarget([], o, RULES).None? && ConfirmTarget([], o, k, at, RULES).None?
  {
    NoTargets([], o, k, at);
  }

  /** The first page opens a deal at 60 against 150 dollars and queues its confirmation. */
  lemma ReelDetected(at: Time, ref: string)
    ensures var u := ObserveStep(Shop([], [], []), ReelPage(6000, at, ref), Reel(6000));
            u == Shop([Seen(6000, at, ref)], [Detected(6000, at, None)], [ConfirmTaskFor(at)])
  {
    hide VerdictOf, ObserveStep, ResolveVerifiedReferenceForOffer;
    ShopStep([], [], [], 6000, at, ref);
    assert [] + [Seen(6000, at, ref)] == [Seen(6000, at, ref)];
    var u := Shop([Seen(6000, at, ref)], [], []);
    NoVerified(u.observations, [], [], Clock(at, 0));
    NoDealYet(0, 0, at);
    assert Pct(6000, 15000) == 6000;
    assert DetectedDeal(u, ReelPage(6000, at, ref), Reel(6000), 0, 0) == Some(Detected(6000, at, None));
    assert FindOpenDeal([], 0, DeepDiscountClaimed).None? && FindOpenTask([], ConfirmKey(0)).None?;
  }

  /** The shop before the reel's first observation. */
  function Opening(): Tables {
    Empty({}).(listings := [Listing(1, "reel-1", URL, Some("reel|1"), None, Some(7), AutoCreated)])
  }

  lemma OpeningStored(f: Fetch)
    requires f == ReelPage(6000, f.at, f.snapshotRef)
    ensures Apply(Empty({}), StoreListing(f)) == Opening()
  {
  }

  lemma FirstLook(at: Time, ref: string)
    ensures ObserveStep(Opening(), ReelPage(6000, at, ref), Reel(6000))
              == Shop([Seen(6000, at, ref)], [Detected(6000, at, None)], [ConfirmTaskFor(at)])
  {
    hide DealStep;
    var f := ReelPage(6000, at, ref);
    assert FindListing(Opening().listings, 1, "reel-1") == Some(0);
    assert Opening().sellers + [Seller(1, "first_party", FirstParty)] == [Seller(1, "first_party", FirstParty)];
    assert Opening().offers + [Offer(0, 0, "reel-1|new", New)] == [Offer(0, 0, "reel-1|new", New)];
    assert WithOffer(Opening(), f, Reel(6000), 0) == (Shop([], [], []), 0);
    assert FindSeller(Shop([], [], []).sellers, 1, "first_party") == Some(0);
    assert FindOffer(Shop([], [], []).offers, 0, "reel-1|new") == Some(0);
    var t := Shop([], [], []);
    assert t.sellers[0 := t.sellers[0].(sellerType := FirstParty)] == t.sellers;
    assert t.offers[0 := t.offers[0].(condition := New)] == t.offers;
    assert WithOffer(t, f, Reel(6000), 0) == (t, 0);
    assert ObserveOffer(Opening(), f, Reel(6000), 0) == ObserveOffer(t, f, Reel(6000), 0);
    ReelDetected(at, ref);
  }

  // ---------------------------------------------------------------- published, then ever cheaper

  function Published(at: Time, k: nat, now: Time): Deal {
    Detected(6000, at, None).(status := Active, confirmingObs := Some(k), lastConfirmedObs := Some(k),
                              confirmedAt := Some(now))
  }

  lemma ReelContext(observations: seq<Observation>, d: Deal, price: int, at: Time, ref: string)
    requires AllSeen(observations) && d.offerId == 0 && d.lane == ClaimedLane && d.detectedVia == ProductPage
    requires d.detectedObs < |observations| && d.price == price > 0 && at - d.detectedAt >= MIN_CONFIRM_DELAY
    requires MIN_DISCOUNT <= Pct(price, 15000) <= HELD_REVIEW_UPPER
    ensures var c :=
              BuildConfirmContext(Shop(observations, [d], []), d, ReelPage(price, at, ref), Reel(price),
                                  Verdict(Ok, []));
            ConfirmCandidate(c) == ToActive && c.confirmingPrice == price && c.discount == Pct(price, 15000)
                && c.reference == Some(15000)
  {
    hide ResolveVerifiedReferenceForOffer, Pct, ConfirmCandidate;
    NoVerified(observations, [d], [], Clock(at, 0));
    ConfirmExactly(BuildConfirmContext(Shop(observations, [d], []), d, ReelPage(price, at, ref), Reel(price),
                                       Verdict(Ok, [])));
  }

  lemma OneDeal(d: Deal, k: nat, at: Time)
    requires d.offerId == 0 && d.rule == DeepDiscountClaimed && (d.status == Confirming || d.status == Active)
    ensures RecheckTarget([d], 0, RULES) == if d.status == Active then Some(0) else None
    ensures ConfirmTarget([d], 0, k, at, RULES) == if AwaitsConfirmation(d, k, at) then Some(0) else None
  {
    Targets([d], 0, 0, k, at);
  }

  /** The second page, ten minutes later, publishes the deal. */
  lemma ReelPublished(at: Time, ref: string, later: Time, next: string, tasks: seq<Task>)
    requires later - at >= MIN_CONFIRM_DELAY && next != ref
    ensures ObserveStep(Shop([Seen(6000, at, ref)], [Detected(6000, at, None)], tasks), ReelPage(6000, later, next),
                        Reel(6000))
              == Shop([Seen(6000, at, ref), Seen(6000, later, next)], [Published(at, 1, later)], tasks)
  {
    hide VerdictOf, ObserveStep, ResolveVerifiedReferenceForOffer, BuildConfirmContext, ConfirmCandidate, Pct;
    var before, d := [Seen(6000, at, ref)], Detected(6000, at, None);
    var after := before + [Seen(6000, later, next)];
    assert LatestIs(before, 6000, at);
    ShopStep(before, [d], tasks, 6000, later, next);
    SixtyPercent();
    ReelContext(after, d, 6000, later, next);
    SameContext(after, d, tasks, 6000, later, next);
    OneDeal(d, 1, later);
    assert [d][0 := Published(at, 1, later)] == [Published(at, 1, later)];
    assert after == [Seen(6000, at, ref), Seen(6000, later, next)];
  }

  lemma SixtyPercent()
    ensures Pct(6000, 15000) == 6000
  {
  }

  /** The queue and the row's own position play no part in a confirmation. */
  lemma SameContext(observations: seq<Observation>, d: Deal, tasks: seq<Task>, price: int, at: Time, ref: string)
    requires AllSeen(observations) && d.offerId == 0 && d.lane == ClaimedLane
    ensures var v := Verdict(Ok, []);
            BuildConfirmContext(Shop(observations, [d], tasks), d, ReelPage(price, at, ref), Reel(price), v)
              == BuildConfirmContext(Shop(observations, [d], []), d, ReelPage(price, at, ref), Reel(price), v)
  {
    hide ResolveVerifiedReferenceForOffer, Pct;
    NoVerified(observations, [d], tasks, Clock(at, 0));
    NoVerified(observations, [d], [], Clock(at, 0));
  }

  function Cheaper(d: Deal, price: int, k: nat): Deal {
    d.(price := price, landed := None, discount := Pct(price, 15000), reference := 15000, lastConfirmedObs := Some(k))
  }

  /** A published reel seen again at 45 % of its price is refreshed. */
  lemma ReelRefreshed(observations: seq<Observation>, d: Deal, tasks: seq<Task>, last: int, when: Time, price: int,
                      at: Time, ref: string)
    requires AllSeen(observations) && LatestIs(observations, last, when) && last > 0
    requires 100 * price == 45 * last && 0 < price < 7000 && price <= d.price
    requires FindReplay(observations, 0, ref).None?
    requires d.offerId == 0 && d.rule == DeepDiscountClaimed && d.lane == ClaimedLane && d.status == Active
    ensures ObserveStep(Shop(observations, [d], tasks), ReelPage(price, at, ref), Reel(price))
              == Shop(observations + [Seen(price, at, ref)], [Cheaper(d, price, |observations|)], tasks)
  {
    hide VerdictOf, ObserveStep, ResolveVerifiedReferenceForOffer, Pct;
    var after := observations + [Seen(price, at, ref)];
    ShopStep(observations, [d], tasks, price, at, ref);
    NoVerified(after, [d], tasks, Clock(at, 0));
    OneDeal(d, |observations|, at);
    HalfOffExactly(price, 15000);
    assert [d][0 := Cheaper(d, price, |observations|)] == [Cheaper(d, price, |observations|)];
  }

  lemma LatestPercent()
    ensures Pct(2700, 15000) == 8200 && Pct(1215, 15000) == 9190
  {
  }

  /** The upper bands are not looked at after a confirmation: from empty tables, four OK pages
      at 60.00, 60.00, 27.00 and 12.15 dollars under a claim of 150.00 leave the deal ACTIVE,
      neither held nor expired, at 91.90 %. */
  lemma AboveTheBand()
    ensures var u := Run(Empty({}), [StoreListing(ReelPage(6000, 0, "a")),
                                     Observe(ReelPage(6000, 0, "a"), Reel(6000)),
                                     Observe(ReelPage(6000, 10 * MINUTE, "b"), Reel(6000)),
                                     Observe(ReelPage(2700, 20 * MINUTE, "c"), Reel(2700)),
                                     Observe(ReelPage(1215, 30 * MINUTE, "d"), Reel(1215))]);
            |u.deals| == 1 && u.deals[0].status == Active && u.deals[0].discount == 9190 && u.deals[0].price == 1215
  {
    hide ObserveStep, StoreListingAndTask, Pct, FindReplay;
    var a, b, c := Seen(6000, 0, "a"), Seen(6000, 10 * MINUTE, "b"), Seen(2700, 20 * MINUTE, "c");
    var d := Published(0, 1, 10 * MINUTE);
    var tasks := [ConfirmTaskFor(0)];
    FirstLook(0, "a");
    OpeningStored(ReelPage(6000, 0, "a"));
    ReelPublished(0, "a", 10 * MINUTE, "b", tasks);
    FreshRefs(a, b, c);
    ReelRefreshed([a, b], d, tasks, 6000, 10 * MINUTE, 2700, 20 * MINUTE, "c");
    assert [a, b] + [c] == [a, b, c];
    ReelRefreshed([a, b, c], Cheaper(d, 2700, 2), tasks, 2700, 20 * MINUTE, 1215, 30 * MINUTE, "d");
    LatestPercent();
    RunFive(Empty({}), StoreListing(ReelPage(6000, 0, "a")),
            Observe(ReelPage(6000, 0, "a"), Reel(6000)), Observe(ReelPage(6000, 10 * MINUTE, "b"), Reel(6000)),
            Observe(ReelPage(2700, 20 * MINUTE, "c"), Reel(2700)),
                Observe(ReelPage(1215, 30 * MINUTE, "d"), Reel(1215)));
  }

  lemma FreshRefs(a: Observation, b: Observation, c: Observation)
    requires a.snapshotRef == "a" && b.snapshotRef == "b" && c.snapshotRef == "c"
    ensures FindReplay([a, b], 0, "c").None? && FindReplay([a, b, c], 0, "d").None?
  {
  }

  lemma RunFive(t: Tables, a: Step, b: Step, c: Step, d: Step, e: Step)
    ensures Run(t, [a, b, c, d, e]) == Apply(Apply(Apply(Apply(Apply(t, a), b), c), d), e)
  {
    hide Apply;
    var u := Apply(Apply(t, a), b);
    assert [a, b, c, d, e][1..] == [b, c, d, e] && [b, c, d, e][1..] == [c, d, e];
    assert [c, d, e][1..] == [d, e] && [d, e][1..] == [e] && [e][1..] == [];
    assert Run(t, [a, b, c, d, e]) == Run(u, [c, d, e]);
    assert Run(Apply(Apply(u, c), d), [e]) == Apply(Apply(Apply(u, c), d), e);
  }

  // ---------------------------------------------------------------- a stranded deal

  /** A reachable stranded deal: the reel is detected, its CONFIRM task is leased, the page
      does not show the offer and the task is DONE. No deadline rejects the deal and no run
      changes it unless it shows the offer again. */
  lemma StrandedReel(steps: seq<Step>)
    requires forall k :: 0 <= k < |steps| ==> !Shows(steps[k], OfferKeys(1, "reel-1", "reel-1|new"))
    ensures var u := Run(Empty({}), [StoreListing(ReelPage(6000, 0, "a")), Observe(ReelPage(6000, 0, "a"), Reel(6000)),
                                     Lease(0), Finish(0, Done)]);
            && |u.deals| == 1 && u.deals[0].status == Confirming
            && |Run(u, steps).deals| >= 1 && Run(u, steps).deals[0] == u.deals[0]
  {
    hide ObserveStep, StoreListingAndTask, Pct;
    FirstLook(0, "a");
    OpeningStored(ReelPage(6000, 0, "a"));
    var s := Shop([Seen(6000, 0, "a")], [Detected(6000, 0, None)], [ConfirmTaskFor(0)]);
    var u := s.(tasks := [ConfirmTaskFor(0).(status := Done)]);
    assert Apply(Apply(s, Lease(0)), Finish(0, Done)) == u;
    RunFour(Empty({}), StoreListing(ReelPage(6000, 0, "a")), Observe(ReelPage(6000, 0, "a"), Reel(6000)), Lease(0),
            Finish(0, Done));
    StrandedStays(u, steps, 0, OfferKeys(1, "reel-1", "reel-1|new"));
  }

  lemma RunFour(t: Tables, a: Step, b: Step, c: Step, d: Step)
    ensures Run(t, [a, b, c, d]) == Apply(Apply(Apply(Apply(t, a), b), c), d)
  {
    hide Apply;
    var u := Apply(Apply(t, a), b);
    assert [a, b, c, d][1..] == [b, c, d] && [b, c, d][1..] == [c, d] && [c, d][1..] == [d] && [d][1..] == [];
    assert Run(t, [a, b, c, d]) == Run(u, [c, d]);
    assert Run(Apply(u, c), [d]) == Apply(Apply(u, c), d);
  }
}
