/** Ingesting the same fetch again, at any later point of a run, changes no observation,
    deal or task (the dedupe of fpt/store/observations.py carried through the pipeline). */
module Replay {
  import opened Core
  import opened Validate
  import opened Schema
  import opened DealRules
  import opened EnrollRules
  import opened Steps

  /** Offer `key` of the fetch's listing already has an observation with its snapshot. */
  ghost predicate OfferRecorded(t: Tables, retailerId: int, sku: string, snapshotRef: string, key: string) {
    var l := FindListing(t.listings, retailerId, sku);
    && l.Some?
    && var o := FindOffer(t.offers, l.value, key);
       o.Some? && FindReplay(t.observations, o.value, snapshotRef).Some?
  }

  ghost predicate TaskRecorded(t: Tables, f: Fetch) {
    f.ownsTask ==> FindTask(t.tasks, FetchKey(f.kind, f.retailerSlug, f.sku, f.snapshotRef)).Some?
  }

  // ---------------------------------------------------------------- keys are stable

  /** Rows are only added or rewritten in place, and never change their keys. */
  ghost predicate KeysKept(t: Tables, u: Tables) {
    && |t.listings| <= |u.listings|
    && (forall i :: 0 <= i < |t.listings| ==>
        u.listings[i].retailerId == t.listings[i].retailerId && u.listings[i].sku == t.listings[i].sku)
    && |t.offers| <= |u.offers|
    && (forall i :: 0 <= i < |t.offers| ==>
        u.offers[i].listingId == t.offers[i].listingId && u.offers[i].offerKey == t.offers[i].offerKey)
    && t.observations <= u.observations
    && |t.tasks| <= |u.tasks|
    && (forall i :: 0 <= i < |t.tasks| ==> u.tasks[i].dedupeKey == t.tasks[i].dedupeKey)
  }

  lemma KeysKeptTransitive(t: Tables, u: Tables, v: Tables)
    requires KeysKept(t, u) && KeysKept(u, v)
    ensures KeysKept(t, v)
  {
  }

  lemma RecordedStable(t: Tables, u: Tables, retailerId: int, sku: string, snapshotRef: string, key: string)
    requires KeysKept(t, u) && OfferRecorded(t, retailerId, sku, snapshotRef, key)
    ensures OfferRecorded(u, retailerId, sku, snapshotRef, key)
    ensures FindListing(u.listings, retailerId, sku) == FindListing(t.listings, retailerId, sku)
  {
    var l := FindListing(t.listings, retailerId, sku).value;
    ListingStable(t, u, retailerId, sku);
    OfferStable(t, u, l, key);
    var o := FindOffer(t.offers, l, key).value;
    var k := FindReplay(t.observations, o, snapshotRef).value;
    assert u.observations[k] == t.observations[k];
  }

  lemma ListingStable(t: Tables, u: Tables, retailerId: int, sku: string)
    requires KeysKept(t, u) && FindListing(t.listings, retailerId, sku).Some?
    ensures FindListing(u.listings, retailerId, sku) == FindListing(t.listings, retailerId, sku)
  {
    var l, m := FindListing(t.listings, retailerId, sku).value, FindListing(u.listings, retailerId, sku);
    assert u.listings[l].retailerId == retailerId && u.listings[l].sku == sku;
  }

  lemma OfferStable(t: Tables, u: Tables, listingId: nat, key: string)
    requires KeysKept(t, u) && FindOffer(t.offers, listingId, key).Some?
    ensures FindOffer(u.offers, listingId, key) == FindOffer(t.offers, listingId, key)
  {
    var l, m := FindOffer(t.offers, listingId, key).value, FindOffer(u.offers, listingId, key);
    assert u.offers[l].listingId == listingId && u.offers[l].offerKey == key;
  }

  lemma TaskStable(t: Tables, u: Tables, f: Fetch)
    requires KeysKept(t, u) && TaskRecorded(t, f)
    ensures TaskRecorded(u, f)
  {
    var key := FetchKey(f.kind, f.retailerSlug, f.sku, f.snapshotRef);
    if f.ownsTask {
      var i := FindTask(t.tasks, key).value;
      assert u.tasks[i].dedupeKey == key;
    }
  }

  lemma DealStepKeepsTaskKeys(t: Tables, f: Fetch, offer: ParsedOffer, o: nat, k: nat, v: Verdict)
    requires o < |t.offers| && t.offers[o].listingId < |t.listings| && f.persistedUrl.Some?
    ensures t.tasks <= DealStep(t, f, offer, o, k, v).tasks
  {
  }

  lemma ObserveKeepsKeys(t: Tables, f: Fetch, offer: ParsedOffer)
    ensures KeysKept(t, ObserveStep(t, f, offer))
  {
    hide DealStep;
    var l := FindListing(t.listings, f.retailerId, f.sku);
    if l.Some? && f.persistedUrl.Some? {
      var (t1, o) := WithOffer(t, f, offer, l.value);
      assert KeysKept(t, t1);
      var v := VerdictOf(t, f, offer, o);
      var t2 := t1.(observations := t.observations + [ObservationRow(f, offer, o, v.quality)]);
      DealStepKeepsTaskKeys(t2, f, offer, o, |t.observations|, v);
    }
  }

  lemma EnrollKeepsKeys(t: Tables, sweep: Sweep, row: GridRow)
    ensures KeysKept(t, Apply(t, Enroll(sweep, row)))
  {
  }

  lemma ApplyKeepsKeys(t: Tables, step: Step)
    ensures KeysKept(t, Apply(t, step))
  {
    hide ObserveStep, EnrollItem;
    match step
    case Observe(f, offer) => ObserveKeepsKeys(t, f, offer);
    case Enroll(sweep, row) => EnrollKeepsKeys(t, sweep, row);
    case _ =>
  }

  lemma {:induction false} RunKeepsKeys(t: Tables, steps: seq<Step>)
    ensures KeysKept(t, Run(t, steps))
    decreases steps
  {
    hide Apply;
    if steps != [] {
      ApplyKeepsKeys(t, steps[0]);
      RunKeepsKeys(Apply(t, steps[0]), steps[1..]);
      KeysKeptTransitive(t, Apply(t, steps[0]), Run(t, steps));
    }
  }

  // ---------------------------------------------------------------- an ingest records its offers

  lemma ObserveRecords(t: Tables, f: Fetch, offer: ParsedOffer, l: nat)
    requires FindListing(t.listings, f.retailerId, f.sku) == Some(l) && f.persistedUrl.Some? && f.snapshotRef != ""
    requires !ObserveOffer(t, f, offer, l).Violation?
    ensures OfferRecorded(ObserveStep(t, f, offer), f.retailerId, f.sku, f.snapshotRef, offer.offerKey)
  {
    var (t1, o) := WithOffer(t, f, offer, l);
    OfferFound(t, f, offer, l);
    var u := ObserveStep(t, f, offer);
    assert u.offers == t1.offers && u.listings == t.listings;
    if FindReplay(t.observations, o, f.snapshotRef).None? {
      var k := |t.observations|;
      assert u.observations[k].offerId == o && u.observations[k].snapshotRef == f.snapshotRef;
    }
  }

  lemma OfferFound(t: Tables, f: Fetch, offer: ParsedOffer, l: nat)
    ensures var (t1, o) := WithOffer(t, f, offer, l); FindOffer(t1.offers, l, offer.offerKey) == Some(o)
  {
    var (t1, o) := WithOffer(t, f, offer, l);
    var m := FindOffer(t1.offers, l, offer.offerKey).value;
    assert forall i :: 0 <= i < |t.offers| ==>
        t1.offers[i].listingId == t.offers[i].listingId && t1.offers[i].offerKey == t.offers[i].offerKey;
  }

  lemma ObserveStepRecords(t: Tables, f: Fetch, offer: ParsedOffer, l: nat, key: string)
    requires FindListing(t.listings, f.retailerId, f.sku) == Some(l) && f.persistedUrl.Some? && f.snapshotRef != ""
    requires !ObserveOffer(t, f, offer, l).Violation?
    requires OfferRecorded(t, f.retailerId, f.sku, f.snapshotRef, key) || offer.offerKey == key
    ensures OfferRecorded(ObserveStep(t, f, offer), f.retailerId, f.sku, f.snapshotRef, key)
  {
    ApplyKeepsKeys(t, Observe(f, offer));
    if OfferRecorded(t, f.retailerId, f.sku, f.snapshotRef, key) {
      RecordedStable(t, Apply(t, Observe(f, offer)), f.retailerId, f.sku, f.snapshotRef, key);
    } else {
      ObserveRecords(t, f, offer, l);
    }
  }

  ghost predicate KeyFrom(f: Fetch, i: nat, key: string) {
    exists j :: i <= j < |f.offers| && f.offers[j].offerKey == key
  }

  lemma ListingsStay(t: Tables, f: Fetch, offer: ParsedOffer)
    ensures ObserveStep(t, f, offer).listings == t.listings
  {
  }

  lemma {:induction false} ObserveAllRecords(t: Tables, f: Fetch, i: nat, key: string)
    requires i <= |f.offers| && ObserveAll(t, f, i).Some?
    requires FindListing(t.listings, f.retailerId, f.sku).Some? && f.persistedUrl.Some? && f.snapshotRef != ""
    requires OfferRecorded(t, f.retailerId, f.sku, f.snapshotRef, key) || KeyFrom(f, i, key)
    ensures OfferRecorded(ObserveAll(t, f, i).value, f.retailerId, f.sku, f.snapshotRef, key)
    decreases |f.offers| - i
  {
    hide ObserveOffer, OfferRecorded;
    if i < |f.offers| {
      var l := FindListing(t.listings, f.retailerId, f.sku).value;
      ListingsStay(t, f, f.offers[i]);
      var u := ObserveStep(t, f, f.offers[i]);
      assert u.listings == t.listings;
      if OfferRecorded(t, f.retailerId, f.sku, f.snapshotRef, key) || f.offers[i].offerKey == key {
        ObserveStepRecords(t, f, f.offers[i], l, key);
      }
      ObserveAllRecords(u, f, i + 1, key);
    }
  }

  // ---------------------------------------------------------------- a recorded fetch is a no-op

  lemma {:induction false} ReplayAll(t: Tables, g: Fetch, i: nat)
    requires i <= |g.offers| && g.persistedUrl.Some? && g.snapshotRef != ""
    requires FindListing(t.listings, g.retailerId, g.sku).Some?
    requires forall j :: i <= j < |g.offers| ==>
               OfferRecorded(t, g.retailerId, g.sku, g.snapshotRef, g.offers[j].offerKey)
    ensures var r := ObserveAll(t, g, i);
            r.Some? && r.value.observations == t.observations && r.value.deals == t.deals && r.value.tasks == t.tasks
    decreases |g.offers| - i
  {
    if i < |g.offers| {
      var l := FindListing(t.listings, g.retailerId, g.sku).value;
      var offer := g.offers[i];
      assert OfferRecorded(t, g.retailerId, g.sku, g.snapshotRef, offer.offerKey);
      var (t1, o) := WithOffer(t, g, offer, l);
      assert FindOffer(t.offers, l, offer.offerKey) == Some(o);
      assert ObserveOffer(t, g, offer, l)
          == OfferResult.Replay(t1, o, FindReplay(t.observations, o, g.snapshotRef).value, VerdictOf(t, g, offer, o));
      forall j | i + 1 <= j < |g.offers|
          ensures OfferRecorded(t1, g.retailerId, g.sku, g.snapshotRef, g.offers[j].offerKey) {
        RecordedStable(t, t1, g.retailerId, g.sku, g.snapshotRef, g.offers[j].offerKey);
      }
      ReplayAll(t1, g, i + 1);
    }
  }

  /** g is a replay of f: the same listing and snapshot, offers among f's, and the same kind
      of task bookkeeping. Prices, conditions and clocks may differ. */
  ghost predicate IsReplayOf(g: Fetch, f: Fetch) {
    && g.retailerId == f.retailerId && g.sku == f.sku && g.snapshotRef == f.snapshotRef != ""
    && (forall j :: 0 <= j < |g.offers| ==> KeyFrom(f, 0, g.offers[j].offerKey))
    && (g.ownsTask ==> f.ownsTask && g.kind == f.kind && g.retailerSlug == f.retailerSlug)
  }

  /** Replaying a fetch that was ingested at any earlier point of the run is a no-op. */
  lemma ReplayIsNoOp(t: Tables, f: Fetch, steps: seq<Step>, g: Fetch)
    requires f.persistedUrl.Some? && ObserveAll(StoreListingAndTask(t, f), f, 0).Some?
    requires IsReplayOf(g, f)
    ensures var u := Run(Ingest(t, f), steps);
            var r := Ingest(u, g);
            r.observations == u.observations && r.deals == u.deals && r.tasks == u.tasks
  {
    hide Run, KeysKept, OfferRecorded;
    if g.persistedUrl.Some? {
      var t1 := StoreListingAndTask(t, f);
      assert FindListing(t1.listings, f.retailerId, f.sku).Some?;
      var s := Ingest(t, f);
      var u := Run(s, steps);
      RunKeepsKeys(s, steps);
      IngestKeepsTask(t, f);
      TaskStable(s, u, f);
      var w := StoreListingAndTask(u, g);
      assert KeysKept(u, w) by { ApplyKeepsKeys(u, StoreListing(g)); }
      forall j | 0 <= j < |g.offers|
          ensures OfferRecorded(w, g.retailerId, g.sku, g.snapshotRef, g.offers[j].offerKey) {
        ObserveAllRecords(t1, f, 0, g.offers[j].offerKey);
        RecordedStable(s, u, g.retailerId, g.sku, g.snapshotRef, g.offers[j].offerKey);
        RecordedStable(u, w, g.retailerId, g.sku, g.snapshotRef, g.offers[j].offerKey);
      }
      assert FindListing(w.listings, g.retailerId, g.sku).Some?;
      ReplayAll(w, g, 0);
    }
  }

  lemma IngestKeepsTask(t: Tables, f: Fetch)
    requires f.persistedUrl.Some? && ObserveAll(StoreListingAndTask(t, f), f, 0).Some?
    ensures TaskRecorded(Ingest(t, f), f)
  {
    var t1 := StoreListingAndTask(t, f);
    if f.ownsTask && FindTask(t.tasks, FetchKey(f.kind, f.retailerSlug, f.sku, f.snapshotRef)).None? {
      assert t1.tasks[|t.tasks|].dedupeKey == FetchKey(f.kind, f.retailerSlug, f.sku, f.snapshotRef);
    }
    assert TaskRecorded(t1, f);
    assert FindListing(t1.listings, f.retailerId, f.sku).Some?;
    ObserveAllIsRun(t1, f, 0);
    RunKeepsKeys(t1, OfferSteps(f, 0));
    TaskStable(t1, Ingest(t, f), f);
  }

  // ---------------------------------------------------------------- what an ingest reports

  /** Each reported observation is a stored row of the reported offer with the fetch's
      snapshot; one that was there before the ingest is reported as a duplicate, and a new
      one with the quality it was stored with. */
  ghost predicate LogOk(before: nat, observations: seq<Observation>, ref: string, log: IngestLog) {
    && |log.offerIds| == |log.observations|
    && forall k :: 0 <= k < |log.observations| ==>
         var r := log.observations[k];
         && r.obs < |observations| && observations[r.obs].offerId == log.offerIds[k]
         && observations[r.obs].snapshotRef == ref
         && (r.obs < before ==> r.wasDuplicate)
              && (!r.wasDuplicate ==> observations[r.obs].quality == r.verdict.quality)
  }

  lemma StepLogOk(t: Tables, f: Fetch, offer: ParsedOffer, l: nat)
    requires l < |t.listings| && f.persistedUrl.Some? && !ObserveOffer(t, f, offer, l).Violation?
    ensures var r := ObserveOffer(t, f, offer, l);
            && |LogOf(r).offerIds| == 1 && t.observations <= r.tables.observations && r.tables.listings == t.listings
            && LogOk(|t.observations|, r.tables.observations, f.snapshotRef, LogOf(r))
  {
    hide DealStep, VerdictOf;
  }

  lemma LogsJoin(before: nat, middle: seq<Observation>, after: seq<Observation>, ref: string, a: IngestLog,
                 b: IngestLog)
    requires before <= |middle| && middle <= after && LogOk(before, middle, ref, a) && LogOk(|middle|, after, ref, b)
    ensures LogOk(before, after, ref, Joined(a, b))
  {
  }

  /** The log names every offer of the fetch, in order, with its stored observation. */
  lemma {:induction false} LogMeans(t: Tables, f: Fetch, i: nat)
    requires i <= |f.offers| && f.persistedUrl.Some? && FindListing(t.listings, f.retailerId, f.sku).Some?
    requires ObserveAll(t, f, i).Some?
    ensures var u, log := ObserveAll(t, f, i).value, ObserveLog(t, f, i);
            && |log.offerIds| == |f.offers| - i && t.observations <= u.observations
            && LogOk(|t.observations|, u.observations, f.snapshotRef, log)
    decreases |f.offers| - i
  {
    hide ObserveOffer, LogOf;
    if i < |f.offers| {
      var l := FindListing(t.listings, f.retailerId, f.sku).value;
      var r := ObserveOffer(t, f, f.offers[i], l);
      StepLogOk(t, f, f.offers[i], l);
      LogMeans(r.tables, f, i + 1);
      LogsJoin(|t.observations|, r.tables.observations, ObserveAll(t, f, i).value.observations, f.snapshotRef,
               LogOf(r), ObserveLog(r.tables, f, i + 1));
    }
  }
}
