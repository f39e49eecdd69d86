/** Every step keeps the invariant and moves each deal along one edge; hence what holds over
    whole runs. */
module Runs {
  import opened Core
  import opened Percent
  import opened Validate
  import opened Confirm
  import opened Schema
  import opened DealRules
  import opened EnrollRules
  import opened Steps
  import opened Lifecycle

  // ---------------------------------------------------------------- steps keep the invariant

  /** Rows may be added around the deals and offers may change condition. */
  lemma Grow(t: Tables, u: Tables)
    requires DealsOk(t) && u.deals == t.deals
    requires t.observations <= u.observations && |t.offers| <= |u.offers|
    requires forall i :: 0 <= i < |u.offers| ==>
               u.offers[i].listingId < |u.listings| && u.offers[i].sellerId < |u.sellers|
    requires forall i :: |t.observations| <= i < |u.observations| ==> ObservationOk(u, u.observations[i])
    ensures DealsOk(u)
  {
    forall i | 0 <= i < |u.observations| ensures ObservationOk(u, u.observations[i]) {
      if i < |t.observations| {
        assert ObservationOk(t, t.observations[i]);
        assert u.observations[i] == t.observations[i];
      }
    }
    forall i | 0 <= i < |u.deals| ensures DealOk(u, u.deals[i]) {
      assert DealOk(t, t.deals[i]);
    }
  }

  lemma SameDealsEdges(t: Tables)
    ensures Edges(t.deals, t.deals) && TouchesOne(t.deals, t.deals)
  {
  }

  /** WithOffer adds at most one seller and one offer, in order. */
  lemma WithOfferGrows(t: Tables, f: Fetch, offer: ParsedOffer, listingId: nat)
    requires DealsOk(t) && listingId < |t.listings|
    ensures var u := WithOffer(t, f, offer, listingId).0;
            DealsOk(u) && u.deals == t.deals && u.observations == t.observations && u.tasks == t.tasks
                && |t.offers| <= |u.offers|
  {
    Grow(t, WithOffer(t, f, offer, listingId).0);
  }

  lemma NothingNamesTheNext(t: Tables)
    requires DealsOk(t)
    ensures forall j :: 0 <= j < |t.deals| ==> !Names(t.deals[j], |t.observations|)
  {
    forall j | 0 <= j < |t.deals| ensures !Names(t.deals[j], |t.observations|) {
      assert DealOk(t, t.deals[j]);
    }
  }

  /** One observation, of one offer, changes at most one deal row or adds one. */
  lemma ObserveKeeps(t: Tables, f: Fetch, offer: ParsedOffer)
    requires DealsOk(t)
    ensures var u := ObserveStep(t, f, offer);
            && DealsOk(u) && Edges(t.deals, u.deals) && TouchesOne(t.deals, u.deals)
            && t.observations <= u.observations && |u.observations| <= |t.observations| + 1
            && (|u.observations| == |t.observations| ==> u.deals == t.deals && u.tasks == t.tasks)
  {
    SameDealsEdges(t);
    var l := FindListing(t.listings, f.retailerId, f.sku);
    if l.Some? && f.persistedUrl.Some? {
      var (t1, o) := WithOffer(t, f, offer, l.value);
      WithOfferGrows(t, f, offer, l.value);
      if ObserveOffer(t, f, offer, l.value).Stored? {
        StoredKeeps(t, f, offer, t1, o);
      }
    }
  }

  lemma StoredKeeps(t: Tables, f: Fetch, offer: ParsedOffer, t1: Tables, o: nat)
    requires DealsOk(t) && DealsOk(t1) && t1.deals == t.deals && t1.observations == t.observations
    requires o < |t1.offers| && RowAllowed(offer) && f.persistedUrl.Some?
    ensures var v := VerdictOf(t, f, offer, o);
            var t2 := t1.(observations := t.observations + [ObservationRow(f, offer, o, v.quality)]);
            var out := DealStep(t2, f, offer, o, |t.observations|, v);
            DealsOk(t2.(deals := out.deals)) && Edges(t.deals, out.deals) && TouchesOne(t.deals, out.deals)
            && DealsOk(t2.(deals := out.deals, tasks := out.tasks))
  {
    var v := VerdictOf(t, f, offer, o);
    var k := |t.observations|;
    var t2 := t1.(observations := t.observations + [ObservationRow(f, offer, o, v.quality)]);
    VerdictMeaning(
      ObservationInput(offer.price, true, f.category, offer.claimed, offer.onClearance, offer.unitCount,
                       Some(f.variantKey), true, f.page == UsedListing),
      ObservationContext(LastOkPrice(t.observations, o), Some(f.variantKey), ListingUnitCount(f), None, None, None,
                         None),
      f.bands);
    assert t2.observations[k] == ObservationRow(f, offer, o, v.quality);
    Grow(t1, t2);
    NothingNamesTheNext(t);
    DealStepKeeps(t2, f, offer, o, k, v);
    var out := DealStep(t2, f, offer, o, k, v);
    TasksAside(t2.(deals := out.deals), out.tasks);
  }

  /** The invariant does not mention tasks, tracked URLs or hits. */
  lemma TasksAside(t: Tables, tasks: seq<Task>)
    requires DealsOk(t)
    ensures DealsOk(t.(tasks := tasks))
  {
    var u := t.(tasks := tasks);
    Grow(t, u);
  }

  lemma StoreListingKeeps(t: Tables, f: Fetch)
    requires DealsOk(t) && f.persistedUrl.Some?
    ensures var u := StoreListingAndTask(t, f); DealsOk(u) && u.deals == t.deals && u.observations == t.observations
  {
    Grow(t, StoreListingAndTask(t, f));
  }

  /** A sweep rewrites each row on its own, keeping its identity and opening none. */
  lemma RowwiseKeeps(t: Tables, deals: seq<Deal>)
    requires DealsOk(t) && |deals| == |t.deals|
    requires forall i :: 0 <= i < |deals| ==> DealOk(t, deals[i]) && Edge(t.deals[i], deals[i])
    requires forall i :: 0 <= i < |deals| ==> IsOpen(deals[i]) ==> IsOpen(t.deals[i])
    requires forall i, k: nat :: 0 <= i < |deals| && Names(deals[i], k) ==> Names(t.deals[i], k)
    ensures DealsOk(t.(deals := deals)) && Edges(t.deals, deals)
  {
    forall i | 0 <= i < |deals| ensures DealOk(t.(deals := deals), deals[i]) {
      assert DealOk(t, deals[i]);
    }
  }

  lemma ExpireStaleKeeps(t: Tables, now: Time, hours: int)
    requires DealsOk(t)
    ensures DealsOk(t.(deals := ExpireStaleDeals(t, now, hours))) && Edges(t.deals, ExpireStaleDeals(t, now, hours))
  {
    var deals := ExpireStaleDeals(t, now, hours);
    forall i | 0 <= i < |deals| ensures DealOk(t, deals[i]) && Edge(t.deals[i], deals[i]) {
      assert DealOk(t, t.deals[i]);
    }
    RowwiseKeeps(t, deals);
  }

  lemma RefuseOverdueKeeps(t: Tables, retailerId: int, now: Time)
    requires DealsOk(t)
    ensures DealsOk(t.(deals := RefuseOverdueDeals(t, retailerId, now)))
    ensures Edges(t.deals, RefuseOverdueDeals(t, retailerId, now))
  {
    var deals := RefuseOverdueDeals(t, retailerId, now);
    forall i | 0 <= i < |deals| ensures DealOk(t, deals[i]) && Edge(t.deals[i], deals[i]) {
      assert DealOk(t, t.deals[i]);
    }
    RowwiseKeeps(t, deals);
  }

  lemma ApplyKeeps(t: Tables, step: Step)
    requires DealsOk(t)
    ensures DealsOk(Apply(t, step)) && Edges(t.deals, Apply(t, step).deals)
    ensures t.observations <= Apply(t, step).observations
  {
    hide ObserveStep, EnrollItem, StoreListingAndTask, DealsOk, RefuseOverdueDeals, ExpireStaleDeals;
    SameDealsEdges(t);
    match step
    case StoreListing(f) => if f.persistedUrl.Some? { StoreListingKeeps(t, f); }
    case Observe(f, offer) => ObserveKeeps(t, f, offer);
    case RefuseOverdue(retailerId, now) =>
      RefuseOverdueKeeps(t, retailerId, now);
      TasksAside(t.(deals := RefuseOverdueDeals(t, retailerId, now)), ExpireOverdueTasks(t.tasks, retailerId, now));
    case ExpireStale(now, hours) => ExpireStaleKeeps(t, now, hours);
    case Lease(i) => TasksAside(t, LeaseTask(t.tasks, i));
    case Finish(i, status) => TasksAside(t, FinishTask(t.tasks, i, status));
    case Enroll(sweep, row) => EnrollAside(t, sweep, row);
    case DisableStale(retailerId, now) => TrackedAside(t, DisableStaleUrls(t, retailerId, now));
  }

  lemma TrackedAside(t: Tables, tracked: seq<TrackedUrl>)
    requires DealsOk(t)
    ensures DealsOk(t.(tracked := tracked))
  {
    Grow(t, t.(tracked := tracked));
  }

  lemma EnrollAside(t: Tables, sweep: Sweep, row: GridRow)
    requires DealsOk(t)
    ensures var u := EnrollItem(t, EnrollOutcome(0, 0, 0, 0, 0), sweep, row).0;
            DealsOk(u) && u.deals == t.deals && u.observations == t.observations
  {
    Grow(t, EnrollItem(t, EnrollOutcome(0, 0, 0, 0, 0), sweep, row).0);
  }

  // ---------------------------------------------------------------- runs

  /** What any number of edges leaves: the write-once columns, the three final statuses, and
      ACTIVE only ever ending as EXPIRED, with the confirming observation it was given. */
  predicate Later(d: Deal, e: Deal) {
    && SameDeal(d, e)
    && (d.status == Refused || d.status == Expired || d.status == HeldReview ==> e == d)
    && (d.status == Active ==> (e.status == Active || e.status == Expired) && e.confirmingObs == d.confirmingObs)
  }

  ghost predicate Evolved(a: seq<Deal>, b: seq<Deal>) {
    |a| <= |b| && forall i :: 0 <= i < |a| ==> Later(a[i], b[i])
  }

  function Empty(conflicts: set<(nat, int)>): Tables {
    Tables([], [], [], [], [], [], [], [], conflicts)
  }

  /** The lifecycle theorem. From tables that satisfy the invariant every run ends in tables
      that satisfy it; every deal only moves CONFIRMING to ACTIVE, HELD_REVIEW or REJECTED
      and ACTIVE to EXPIRED; a final row never changes again; observations only grow. */
  lemma {:induction false} RunKeeps(t: Tables, steps: seq<Step>)
    requires DealsOk(t)
    ensures DealsOk(Run(t, steps)) && Evolved(t.deals, Run(t, steps).deals)
    ensures t.observations <= Run(t, steps).observations
    decreases steps
  {
    if steps != [] {
      var u := Apply(t, steps[0]);
      ApplyKeeps(t, steps[0]);
      RunKeeps(u, steps[1..]);
      var v := Run(u, steps[1..]);
      forall i | 0 <= i < |t.deals| ensures Later(t.deals[i], v.deals[i]) {
        assert Edge(t.deals[i], u.deals[i]) && Later(u.deals[i], v.deals[i]);
      }
    }
  }

  /** Every reachable state, row by row: a published, held or expired deal was confirmed by
      another fetch of the same offer at least ten minutes after the one that detected it;
      the stored percentage is that of the stored prices and is at least 50.00; the stored
      price is what the observation it was last taken from offered; the kind of reference
      fits the lane and the dated columns fit the status; the detecting observation showed what
      its lane asks for; the confirming one is of the same variant and pack count; and a
      rejection is either by the deadline sweep, without a second fetch, or by a second fetch
      for a reason the pipeline can give. */
  lemma ReachableDeals(conflicts: set<(nat, int)>, steps: seq<Step>, i: nat)
    requires i < |Run(Empty(conflicts), steps).deals|
    ensures var t := Run(Empty(conflicts), steps); var d := t.deals[i];
            && d.status != AsCandidate
            && (d.status == Active || d.status == HeldReview || d.status == Expired ==>
                  d.confirmingObs.Some? && SecondFetch(t, d, d.confirmingObs.value))
            && d.discount == Pct(d.price, d.reference) && d.discount >= MIN_DISCOUNT
            && 0 < 20000 * d.price <= 10001 * d.reference
            && PriceSourced(t.observations, d) && KindFits(d) && DatesFit(d)
            && DetectionShows(d, t.observations[d.detectedObs]) && EvidenceOk(t.observations, d)
            && (d.status == Refused ==> d.rejectReason.Some? && Writable(d.rejectReason.value))
            && (d.status == Refused ==> (d.confirmingObs.Some? <==> d.rejectReason != Some(ConfirmDeadlineMissed)))
  {
    var t := Run(Empty(conflicts), steps);
    RunKeeps(Empty(conflicts), steps);
    assert DealOk(t, t.deals[i]);
    HalfOffExactly(t.deals[i].price, t.deals[i].reference);
  }

  /** Every reachable state, across rows: at most one open deal of an offer and rule, and
      no observation is named by two deals, or named as both the detecting and a later
      observation of one. */
  lemma ReachableUniqueness(conflicts: set<(nat, int)>, steps: seq<Step>, i: nat, j: nat, k: nat)
    requires i < |Run(Empty(conflicts), steps).deals| && j < |Run(Empty(conflicts), steps).deals|
    ensures var t := Run(Empty(conflicts), steps); var d, e := t.deals[i], t.deals[j];
            && (IsOpen(d) && IsOpen(e) && d.offerId == e.offerId && d.rule == e.rule ==> i == j)
            && (Names(d, k) && Names(e, k) ==> i == j)
            && (d.detectedObs == k ==> d.confirmingObs != Some(k) && d.lastConfirmedObs != Some(k))
  {
    var t := Run(Empty(conflicts), steps);
    RunKeeps(Empty(conflicts), steps);
    assert DealOk(t, t.deals[i]);
    var d, e := t.deals[i], t.deals[j];
    if Names(d, k) && Names(e, k) { assert !(i < j) && !(j < i); }
  }

  // ---------------------------------------------------------------- price drift

  function Pow(base: nat, n: nat): nat {
    if n == 0 then 1 else base * Pow(base, n - 1)
  }

  /** How often deal i was confirmed or refreshed along the run: each time it is given a
      new last-confirmed observation. */
  function Updates(t: Tables, steps: seq<Step>, i: nat): nat
    decreases steps
  {
    if steps == [] then 0 else
      var u := Apply(t, steps[0]);
      (if i < |t.deals| && i < |u.deals| && u.deals[i].lastConfirmedObs != t.deals[i].lastConfirmedObs then 1 else 0)
      + Updates(u, steps[1..], i)
  }

  ghost predicate Drifted(p: int, r: int, n: nat) {
    Pow(100, n) * r <= Pow(102, n) * p
  }

  /** One more factor of 1.02 in front. */
  lemma DriftStep(p: int, q: int, r: int, n: nat)
    requires WithinTolerance(q, p) && Drifted(q, r, n)
    ensures Drifted(p, r, n + 1)
  {
    Chain(Pow(100, n), Pow(102, n), p, q, r);
  }

  lemma Chain(a: nat, b: nat, p: int, q: int, r: int)
    requires 100 * q <= 102 * p && a * r <= b * q
    ensures (100 * a) * r <= (102 * b) * p
  {
    assert (100 * a) * r == 100 * (a * r);
    assert (102 * b) * p == b * (102 * p);
    assert b * (100 * q) <= b * (102 * p);
    assert b * (100 * q) == 100 * (b * q);
  }

  /** After n confirmations and refreshes the stored price is at most 1.02^n times the price
      it had at the start, whatever happened in between; for a deal just detected that is
      1.02^(k+1) after its confirmation and k refreshes. */
  lemma {:induction false} PriceDrift(t: Tables, steps: seq<Step>, i: nat)
    requires DealsOk(t) && i < |t.deals|
    ensures i < |Run(t, steps).deals|
    ensures Drifted(t.deals[i].price, Run(t, steps).deals[i].price, Updates(t, steps, i))
    decreases steps
  {
    hide Apply;
    if steps != [] {
      PriceDrift(AfterStep(t, steps[0], i), steps[1..], i);
      var u := Apply(t, steps[0]);
      if u.deals[i].lastConfirmedObs != t.deals[i].lastConfirmedObs {
        DriftStep(t.deals[i].price, u.deals[i].price, Run(u, steps[1..]).deals[i].price, Updates(u, steps[1..], i));
      }
    }
  }

  /** One step seen from one deal's price. */
  ghost function AfterStep(t: Tables, step: Step, i: nat): (u: Tables)
    requires DealsOk(t) && i < |t.deals|
    ensures u == Apply(t, step) && DealsOk(u) && i < |u.deals|
    ensures if u.deals[i].lastConfirmedObs == t.deals[i].lastConfirmedObs then u.deals[i].price == t.deals[i].price
            else WithinTolerance(u.deals[i].price, t.deals[i].price)
  {
    ApplyKeeps(t, step);
    assert Edge(t.deals[i], Apply(t, step).deals[i]);
    Apply(t, step)
  }
}
