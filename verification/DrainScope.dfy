/** A drain writes for its own retailer and under its task's category only. */
module DrainScope {
  import opened Core
  import Validate
  import opened Schema
  import opened DealRules
  import opened Steps
  import opened LimiterRules
  import Lifecycle
  import opened DrainRules

  // ---------------------------------------------------------------- what an ingest writes for

  ghost predicate OfRetailer(t: Tables, o: nat, retailerId: int) {
    o < |t.offers| && t.offers[o].listingId < |t.listings|
    && t.listings[t.offers[o].listingId].retailerId == retailerId
  }

  /** Everything written is the retailer's: listings, offers, observations and queued rows that
      are new, and listings and deals that changed. New queue rows are of the category. */
  ghost predicate WritesFor(t: Tables, u: Tables, retailerId: int, category: string) {
    && |t.listings| <= |u.listings| && |t.offers| <= |u.offers| && |t.deals| <= |u.deals|
    && t.observations <= u.observations && t.tasks <= u.tasks
    && u.tracked == t.tracked && u.hits == t.hits
    && (forall i :: 0 <= i < |t.listings| ==> u.listings[i].retailerId == t.listings[i].retailerId)
    && (forall i :: 0 <= i < |t.listings| && t.listings[i].retailerId != retailerId ==> u.listings[i] == t.listings[i])
    && (forall i :: |t.listings| <= i < |u.listings| ==> u.listings[i].retailerId == retailerId)
    && (forall o :: 0 <= o < |t.offers| ==> u.offers[o].listingId == t.offers[o].listingId)
    && (forall o :: 0 <= o < |t.offers| && u.offers[o] != t.offers[o] ==> OfRetailer(u, o, retailerId))
    && (forall o :: |t.offers| <= o < |u.offers| ==> OfRetailer(u, o, retailerId))
    && (forall k :: |t.observations| <= k < |u.observations| ==> OfRetailer(u, u.observations[k].offerId, retailerId))
    && (forall i :: 0 <= i < |t.deals| && u.deals[i] != t.deals[i] ==> OfRetailer(u, u.deals[i].offerId, retailerId))
    && (forall i :: |t.deals| <= i < |u.deals| ==> OfRetailer(u, u.deals[i].offerId, retailerId))
    && (forall j :: |t.tasks| <= j < |u.tasks| ==>
          u.tasks[j].retailerId == retailerId && u.tasks[j].category == category)
  }

  lemma WritesTwice(t: Tables, u: Tables, v: Tables, retailerId: int, category: string)
    requires WritesFor(t, u, retailerId, category) && WritesFor(u, v, retailerId, category)
    ensures WritesFor(t, v, retailerId, category)
  {
    forall o: nat | OfRetailer(u, o, retailerId) ensures OfRetailer(v, o, retailerId) {
      StillOf(u, v, o, retailerId, category);
    }
    assert forall k :: |t.observations| <= k < |u.observations| ==> v.observations[k] == u.observations[k];
    assert forall j :: |t.tasks| <= j < |u.tasks| ==> v.tasks[j] == u.tasks[j];
  }

  lemma StillOf(u: Tables, v: Tables, o: nat, retailerId: int, category: string)
    requires WritesFor(u, v, retailerId, category) && OfRetailer(u, o, retailerId)
    ensures OfRetailer(v, o, retailerId)
  {
  }

  lemma WritesNothing(t: Tables, retailerId: int, category: string)
    ensures WritesFor(t, t, retailerId, category)
  {
  }

  lemma QueuesScoped(t: Tables, f: Fetch, offer: ParsedOffer, o: nat, k: nat, v: Validate.Verdict)
    requires o < |t.offers| && t.offers[o].listingId < |t.listings| && f.persistedUrl.Some?
    ensures var tasks := DealStep(t, f, offer, o, k, v).tasks;
            && t.tasks <= tasks
            && forall j :: |t.tasks| <= j < |tasks| ==>
                 tasks[j].retailerId == f.retailerId && tasks[j].category == f.category
  {
    hide BuildConfirmContext, FreshReference, RecheckTarget, ConfirmTarget, RecheckDeal, DetectedDeal,
      CreateCandidateDeal;
  }

  lemma DealsScoped(t: Tables, f: Fetch, offer: ParsedOffer, o: nat, k: nat, v: Validate.Verdict)
    requires OfRetailer(t, o, f.retailerId) && f.persistedUrl.Some?
    ensures var out := DealStep(t, f, offer, o, k, v);
            WritesFor(t, t.(deals := out.deals, tasks := out.tasks), f.retailerId, f.category)
  {
    hide DealStep;
    QueuesScoped(t, f, offer, o, k, v);
    Lifecycle.ActionMeaning(t, f, offer, o, k, v);
  }

  lemma RowsScoped(t: Tables, f: Fetch, offer: ParsedOffer, l: nat, b: Observation)
    requires l < |t.listings| && t.listings[l].retailerId == f.retailerId
    requires b.offerId == WithOffer(t, f, offer, l).1
    ensures var (t1, o) := WithOffer(t, f, offer, l); var t2 := t1.(observations := t.observations + [b]);
            && t1.listings == t.listings && t1.observations == t.observations
            && WritesFor(t, t1, f.retailerId, f.category) && WritesFor(t, t2, f.retailerId, f.category)
            && OfRetailer(t2, o, f.retailerId)
  {
    hide UpsertSeller;
  }

  lemma OfferScoped(t: Tables, f: Fetch, offer: ParsedOffer, l: nat)
    requires l < |t.listings| && t.listings[l].retailerId == f.retailerId && f.persistedUrl.Some?
    requires !ObserveOffer(t, f, offer, l).Violation?
    ensures var u := ObserveOffer(t, f, offer, l).tables;
            WritesFor(t, u, f.retailerId, f.category) && u.listings == t.listings
  {
    hide DealStep, VerdictOf, WritesFor, WithOffer;
    var (t1, o) := WithOffer(t, f, offer, l);
    var v := VerdictOf(t, f, offer, o);
    var t2 := t1.(observations := t.observations + [ObservationRow(f, offer, o, v.quality)]);
    RowsScoped(t, f, offer, l, ObservationRow(f, offer, o, v.quality));
    DealsScoped(t2, f, offer, o, |t.observations|, v);
    var out := DealStep(t2, f, offer, o, |t.observations|, v);
    WritesTwice(t, t2, t2.(deals := out.deals, tasks := out.tasks), f.retailerId, f.category);
  }

  lemma {:induction false} LoopScoped(t: Tables, f: Fetch, i: nat)
    requires i <= |f.offers| && f.persistedUrl.Some? && FindListing(t.listings, f.retailerId, f.sku).Some?
    requires ObserveAll(t, f, i).Some?
    ensures WritesFor(t, ObserveAll(t, f, i).value, f.retailerId, f.category)
    decreases |f.offers| - i
  {
    hide ObserveOffer, WritesFor;
    if i == |f.offers| {
      WritesNothing(t, f.retailerId, f.category);
    } else {
      var l := FindListing(t.listings, f.retailerId, f.sku).value;
      var r := ObserveOffer(t, f, f.offers[i], l);
      OfferScoped(t, f, f.offers[i], l);
      LoopScoped(r.tables, f, i + 1);
      WritesTwice(t, r.tables, ObserveAll(t, f, i).value, f.retailerId, f.category);
    }
  }

  lemma ListingScoped(t: Tables, f: Fetch)
    requires f.persistedUrl.Some?
    ensures WritesFor(t, StoreListingAndTask(t, f), f.retailerId, f.category)
    ensures FindListing(StoreListingAndTask(t, f).listings, f.retailerId, f.sku).Some?
  {
  }

  /** An ingest writes for its fetch's retailer only, and queues under its category. */
  lemma IngestScoped(t: Tables, f: Fetch)
    ensures WritesFor(t, Ingest(t, f), f.retailerId, f.category)
  {
    hide ObserveAll, StoreListingAndTask, WritesFor;
    WritesNothing(t, f.retailerId, f.category);
    if f.persistedUrl.Some? && IngestSucceeds(t, f) {
      ListingScoped(t, f);
      LoopScoped(StoreListingAndTask(t, f), f, 0);
      WritesTwice(t, StoreListingAndTask(t, f), Ingest(t, f), f.retailerId, f.category);
    }
  }

  // ---------------------------------------------------------------- a turn

  lemma {:induction false} ListingsScoped(t: Tables, fetches: seq<Fetch>, task: Task)
    requires IngestListings(t, fetches, task).Some?
    ensures WritesFor(t, IngestListings(t, fetches, task).value, task.retailerId, task.category)
    decreases fetches
  {
    hide Ingest, IngestSucceeds, WritesFor;
    if fetches == [] {
      WritesNothing(t, task.retailerId, task.category);
    } else {
      var f := ForTask(fetches[0], task);
      IngestScoped(t, f);
      ListingsScoped(Ingest(t, f), fetches[1..], task);
      WritesTwice(t, Ingest(t, f), IngestListings(t, fetches, task).value, task.retailerId, task.category);
    }
  }

  /** A row that is leased and finished may be looked at as it was. */
  lemma OwnRowAside(t: Tables, v: Tables, i: nat, status: TaskStatus)
    requires i < |t.tasks| && WritesFor(Leasing(t, i), v, t.tasks[i].retailerId, t.tasks[i].category)
    ensures var u := Finished(v, i, status); var a := t.tasks[i];
            |t.tasks| <= |u.tasks| && WritesFor(t, u.(tasks := u.tasks[i := a]), a.retailerId, a.category)
  {
    var leased, u := Leasing(t, i), Finished(v, i, status);
    var w := u.(tasks := u.tasks[i := t.tasks[i]]);
    assert forall j :: 0 <= j < |t.tasks| ==> w.tasks[j] == t.tasks[j] by {
      assert forall j :: 0 <= j < |leased.tasks| ==> v.tasks[j] == leased.tasks[j];
    }
    forall o | OfRetailer(v, o, t.tasks[i].retailerId) ensures OfRetailer(w, o, t.tasks[i].retailerId) { }
  }

  lemma OwnRowOnly(t: Tables, i: nat, status: TaskStatus)
    requires i < |t.tasks|
    ensures var a := t.tasks[i];
            && Finished(t, i, status).(tasks := Finished(t, i, status).tasks[i := a]) == t
            && |Finished(t, i, status).tasks| == |t.tasks|
            && t.(tasks := t.tasks[i := a]) == t
  {
    assert t.tasks[i := t.tasks[i]] == t.tasks;
    assert Finished(t, i, status).tasks[i := t.tasks[i]] == t.tasks;
  }

  /** Whatever page a turn meets, and whatever retailer that page names, it writes for the
      retailer of the selected task only, and queues under the task's category. The task's own
      row aside, old queue rows stay. */
  lemma TurnScoped(p: Policy, t: Tables, s: State, clock: Time, i: nat, w: World)
    requires p.minSample >= 1 && i < |t.tasks|
    ensures var u := TakeTask(p, t, s, clock, i, w).tables; var a := t.tasks[i];
            && |t.tasks| <= |u.tasks|
            && WritesFor(t, u.(tasks := u.tasks[i := a]), a.retailerId, a.category)
  {
    hide IngestListings, RecordOutcome, RecordRequest, CanAdmit, WritesFor, FinishTask, LeaseTask;
    var a, leased := t.tasks[i], Leasing(t, i);
    WritesNothing(t, a.retailerId, a.category);
    WritesNothing(leased, a.retailerId, a.category);
    var turn := TakeTask(p, t, s, clock, i, w);
    var status := if turn.taken.Some? then turn.taken.value else Done;
    OwnRowOnly(t, i, status);
    OwnRowAside(t, leased, i, status);
    if w.answer.Listings? && IngestListings(leased, w.answer.fetches, a).Some? {
      ListingsScoped(leased, w.answer.fetches, a);
      OwnRowAside(t, IngestListings(leased, w.answer.fetches, a).value, i, Done);
    }
  }
}
