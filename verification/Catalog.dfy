/** The rows that observations hang on: over every run their keys stay unique, a row never
    turns into another one, and a completed ingest leaves them as its fetch shows them. */
module Catalog {
  import opened Core
  import opened Validate
  import opened Schema
  import opened DealRules
  import opened EnrollRules
  import opened Steps

  // ---------------------------------------------------------------- what every run keeps

  ghost predicate UniqueSellers(s: seq<Seller>) {
    forall i, j :: 0 <= i < j < |s| ==> !(s[i].retailerId == s[j].retailerId && s[i].sellerKey == s[j].sellerKey)
  }

  ghost predicate UniqueListings(s: seq<Listing>) {
    forall i, j :: 0 <= i < j < |s| ==> !(s[i].retailerId == s[j].retailerId && s[i].sku == s[j].sku)
  }

  ghost predicate UniqueOffers(s: seq<Offer>) {
    forall i, j :: 0 <= i < j < |s| ==> !(s[i].listingId == s[j].listingId && s[i].offerKey == s[j].offerKey)
  }

  ghost predicate UniqueTracked(s: seq<TrackedUrl>) {
    forall i, j :: 0 <= i < j < |s| ==> !(s[i].retailerId == s[j].retailerId && s[i].url == s[j].url)
  }

  /** A fetch leaves at most one row, whatever becomes of it. */
  ghost predicate UniqueFetches(s: seq<Task>) {
    forall i, j :: 0 <= i < j < |s| && s[i].dedupeKey.FetchKey? ==> s[i].dedupeKey != s[j].dedupeKey
  }

  /** An offer's seller and listing are of one retailer. */
  ghost predicate OfferLinked(t: Tables, o: Offer) {
    && o.listingId < |t.listings| && o.sellerId < |t.sellers|
    && t.sellers[o.sellerId].retailerId == t.listings[o.listingId].retailerId
  }

  ghost predicate HitLinked(t: Tables, h: Hit) {
    h.trackedId.Some? ==> h.trackedId.value < |t.tracked| && t.tracked[h.trackedId.value].url == h.url
  }

  ghost predicate CatalogOk(t: Tables) {
    && UniqueSellers(t.sellers) && UniqueListings(t.listings) && UniqueOffers(t.offers)
    && UniqueTracked(t.tracked) && UniqueFetches(t.tasks)
    && (forall i :: 0 <= i < |t.listings| ==> t.listings[i].variantKey.Some? && t.listings[i].variantId.Some?)
    && (forall i :: 0 <= i < |t.offers| ==> OfferLinked(t, t.offers[i]))
    && (forall i :: 0 <= i < |t.hits| ==> HitLinked(t, t.hits[i]))
  }

  /** A listing keeps its retailer, sku and URL, and a variant link with its status. */
  ghost predicate ListingKept(a: Listing, b: Listing) {
    && b.retailerId == a.retailerId && b.sku == a.sku && b.url == a.url
    && (a.variantId.Some? ==> b.variantId == a.variantId && b.matchStatus == a.matchStatus)
  }

  /** A URL without an expiry, registered by hand, is never touched. */
  ghost predicate TrackedKept(a: TrackedUrl, b: TrackedUrl) {
    && b.retailerId == a.retailerId && b.url == a.url
    && (a.expiresAt.None? ==> b == a) && (a.expiresAt.Some? ==> b.expiresAt.Some?)
  }

  /** A queue row changes nothing but its status, and is never reopened. */
  ghost predicate TaskKept(a: Task, b: Task) {
    b == a.(status := b.status) && (IsOpenTask(b) ==> IsOpenTask(a)) && (b.status == Queued ==> a.status == Queued)
  }

  ghost predicate RowsKept(t: Tables, u: Tables) {
    && |t.sellers| <= |u.sellers| && |t.listings| <= |u.listings| && |t.offers| <= |u.offers|
    && |t.tracked| <= |u.tracked| && |t.tasks| <= |u.tasks| && t.hits <= u.hits
    && (forall i :: 0 <= i < |t.sellers| ==>
          u.sellers[i].retailerId == t.sellers[i].retailerId && u.sellers[i].sellerKey == t.sellers[i].sellerKey)
    && (forall i :: 0 <= i < |t.listings| ==> ListingKept(t.listings[i], u.listings[i]))
    && (forall i :: 0 <= i < |t.offers| ==> u.offers[i] == t.offers[i].(condition := u.offers[i].condition))
    && (forall i :: 0 <= i < |t.tracked| ==> TrackedKept(t.tracked[i], u.tracked[i]))
    && (forall i :: 0 <= i < |t.tasks| ==> TaskKept(t.tasks[i], u.tasks[i]))
  }

  lemma RowsKeptTransitive(t: Tables, u: Tables, v: Tables)
    requires RowsKept(t, u) && RowsKept(u, v)
    ensures RowsKept(t, v)
  {
  }

  // ---------------------------------------------------------------- steps

  lemma SellerOk(t: Tables, retailerId: int, key: string, kind: SellerType)
    requires CatalogOk(t)
    ensures var (sellers, s) := UpsertSeller(t.sellers, retailerId, key, kind); var u := t.(sellers := sellers);
            CatalogOk(u) && RowsKept(t, u) && s < |sellers| && sellers[s].retailerId == retailerId
  {
    var (sellers, s) := UpsertSeller(t.sellers, retailerId, key, kind);
    assert forall i :: 0 <= i < |t.offers| ==> OfferLinked(t, t.offers[i]);
  }

  lemma OfferOk(t: Tables, listingId: nat, sellerId: nat, key: string, condition: Condition)
    requires CatalogOk(t) && listingId < |t.listings| && sellerId < |t.sellers|
    requires t.sellers[sellerId].retailerId == t.listings[listingId].retailerId
    ensures var u := t.(offers := UpsertOffer(t.offers, listingId, sellerId, key, condition).0);
            CatalogOk(u) && RowsKept(t, u)
  {
    hide UniqueSellers, UniqueListings, UniqueTracked, UniqueFetches, HitLinked;
    assert forall i :: 0 <= i < |t.offers| ==> OfferLinked(t, t.offers[i]);
    SameHits(t, t.(offers := UpsertOffer(t.offers, listingId, sellerId, key, condition).0));
  }

  lemma SameHits(t: Tables, u: Tables)
    requires CatalogOk(t) && u.tracked == t.tracked && u.hits == t.hits
    ensures forall i :: 0 <= i < |u.hits| ==> HitLinked(u, u.hits[i])
  {
    assert forall i :: 0 <= i < |t.hits| ==> HitLinked(t, t.hits[i]);
  }

  /** A deal step writes no catalog row and at most queues a CONFIRM task. */
  lemma DealStepAside(t: Tables, f: Fetch, offer: ParsedOffer, o: nat, k: nat, v: Verdict)
    requires o < |t.offers| && t.offers[o].listingId < |t.listings| && f.persistedUrl.Some?
    requires CatalogOk(t)
    ensures var out := DealStep(t, f, offer, o, k, v); var u := t.(deals := out.deals, tasks := out.tasks);
            CatalogOk(u) && RowsKept(t, u)
  {
    hide DetectedDeal, BuildConfirmContext, FreshReference, RecheckTarget, ConfirmTarget;
  }

  lemma ObserveOk(t: Tables, f: Fetch, offer: ParsedOffer)
    requires CatalogOk(t)
    ensures CatalogOk(ObserveStep(t, f, offer)) && RowsKept(t, ObserveStep(t, f, offer))
  {
    hide DealStep, CatalogOk, RowsKept, UpsertSeller, UpsertOffer;
    KeptSame(t);
    var l := FindListing(t.listings, f.retailerId, f.sku);
    if l.Some? && f.persistedUrl.Some? {
      SellerOk(t, f.retailerId, offer.sellerKey, offer.sellerType);
      var (sellers, s) := UpsertSeller(t.sellers, f.retailerId, offer.sellerKey, offer.sellerType);
      OfferOk(t.(sellers := sellers), l.value, s, offer.offerKey, offer.condition);
      var (t1, o) := WithOffer(t, f, offer, l.value);
      RowsKeptTransitive(t, t.(sellers := sellers), t1);
      var v := VerdictOf(t, f, offer, o);
      var t2 := t1.(observations := t.observations + [ObservationRow(f, offer, o, v.quality)]);
      ObservationsAside(t1, t2.observations);
      DealStepAside(t2, f, offer, o, |t.observations|, v);
      var out := DealStep(t2, f, offer, o, |t.observations|, v);
      RowsKeptTransitive(t, t1, t2);
      RowsKeptTransitive(t, t2, t2.(deals := out.deals, tasks := out.tasks));
    }
  }

  lemma KeptSame(t: Tables)
    ensures RowsKept(t, t)
  {
  }

  lemma ObservationsAside(t: Tables, observations: seq<Observation>)
    requires CatalogOk(t)
    ensures CatalogOk(t.(observations := observations)) && RowsKept(t, t.(observations := observations))
  {
    var u := t.(observations := observations);
    assert forall i :: 0 <= i < |t.offers| ==> OfferLinked(t, t.offers[i]);
    assert forall i :: 0 <= i < |t.hits| ==> HitLinked(t, t.hits[i]);
  }

  /** The URLs, hits and queue rows may grow while the catalog stays. */
  lemma Beside(t: Tables, u: Tables)
    requires CatalogOk(t) && u.sellers == t.sellers && u.listings == t.listings && u.offers == t.offers
    requires UniqueTracked(u.tracked) && |t.tracked| <= |u.tracked|
    requires forall i :: 0 <= i < |t.tracked| ==> TrackedKept(t.tracked[i], u.tracked[i])
    requires UniqueFetches(u.tasks) && |t.tasks| <= |u.tasks|
    requires forall i :: 0 <= i < |t.tasks| ==> TaskKept(t.tasks[i], u.tasks[i])
    requires t.hits <= u.hits && forall i :: |t.hits| <= i < |u.hits| ==> HitLinked(u, u.hits[i])
    ensures CatalogOk(u) && RowsKept(t, u)
  {
    assert forall i :: 0 <= i < |t.offers| ==> OfferLinked(t, t.offers[i]);
    forall i | 0 <= i < |u.hits| ensures HitLinked(u, u.hits[i]) {
      if i < |t.hits| { assert HitLinked(t, t.hits[i]); }
    }
  }

  lemma TrackOk(tracked: seq<TrackedUrl>, sweep: Sweep, url: string)
    requires UniqueTracked(tracked)
    ensures var u := TrackUrl(tracked, sweep, url).0;
            UniqueTracked(u) && |tracked| <= |u| && forall i :: 0 <= i < |tracked| ==> TrackedKept(tracked[i], u[i])
  {
  }

  lemma EnqueueOk(tasks: seq<Task>, sweep: Sweep, url: string, category: string, priority: int)
    requires UniqueFetches(tasks)
    ensures var u := EnqueueEnrollTask(tasks, sweep, url, category, priority);
            UniqueFetches(u) && |tasks| <= |u| && forall i :: 0 <= i < |tasks| ==> TaskKept(tasks[i], u[i])
  {
  }

  lemma Parts(t: Tables)
    requires CatalogOk(t)
    ensures UniqueTracked(t.tracked) && UniqueFetches(t.tasks)
    ensures forall i :: 0 <= i < |t.tracked| ==> TrackedKept(t.tracked[i], t.tracked[i])
    ensures forall i :: 0 <= i < |t.tasks| ==> TaskKept(t.tasks[i], t.tasks[i])
  {
  }

  lemma ListingRowOk(t: Tables, f: Fetch)
    requires CatalogOk(t) && f.persistedUrl.Some?
    ensures var u := t.(listings := UpsertListing(t.listings, f).0); CatalogOk(u) && RowsKept(t, u)
  {
    hide UniqueSellers, UniqueOffers, UniqueTracked, UniqueFetches, HitLinked;
    var u := t.(listings := UpsertListing(t.listings, f).0);
    assert forall i :: 0 <= i < |t.offers| ==> OfferLinked(t, t.offers[i]);
    SameHits(t, u);
  }

  lemma FetchTaskOk(tasks: seq<Task>, f: Fetch)
    requires UniqueFetches(tasks) && f.persistedUrl.Some?
    ensures var u := EnsureFetchTask(tasks, f);
            UniqueFetches(u) && |tasks| <= |u| && forall i :: 0 <= i < |tasks| ==> TaskKept(tasks[i], u[i])
  {
  }

  lemma ListingOk(t: Tables, f: Fetch)
    requires CatalogOk(t) && f.persistedUrl.Some?
    ensures CatalogOk(StoreListingAndTask(t, f)) && RowsKept(t, StoreListingAndTask(t, f))
  {
    hide CatalogOk, RowsKept, UpsertListing, EnsureFetchTask, UniqueFetches, UniqueTracked, TaskKept, TrackedKept;
    var u := t.(listings := UpsertListing(t.listings, f).0);
    ListingRowOk(t, f);
    Parts(u);
    FetchTaskOk(t.tasks, f);
    Beside(u, StoreListingAndTask(t, f));
    RowsKeptTransitive(t, u, StoreListingAndTask(t, f));
  }

  lemma EnrollOk(t: Tables, sweep: Sweep, row: GridRow)
    requires CatalogOk(t)
    ensures CatalogOk(Apply(t, Enroll(sweep, row))) && RowsKept(t, Apply(t, Enroll(sweep, row)))
  {
    hide HitAllowed, FastTrack, AtCap, ImpliedDiscount, TrackUrl, EnqueueEnrollTask, CategoryFor,
      UniqueTracked, UniqueFetches, CatalogOk, RowsKept, TrackedKept, TaskKept;
    Parts(t);
    TrackOk(t.tracked, sweep, row.item.productUrl);
    var priority := if FastTrack(row.item) then FAST_TRACK_PRIORITY else NORMAL_PRIORITY;
    EnqueueOk(t.tasks, sweep, row.item.productUrl, CategoryFor(sweep, row.item), priority);
    Beside(t, Apply(t, Enroll(sweep, row)));
  }

  lemma QueueOk(t: Tables, step: Step)
    requires CatalogOk(t) && !step.StoreListing? && !step.Observe? && !step.Enroll?
    ensures CatalogOk(Apply(t, step)) && RowsKept(t, Apply(t, step))
  {
    hide HasOpenDealAt, DeadlineMissed, ExpireIfStale;
    Beside(t, Apply(t, step));
  }

  lemma ApplyKeepsCatalog(t: Tables, step: Step)
    requires CatalogOk(t)
    ensures CatalogOk(Apply(t, step)) && RowsKept(t, Apply(t, step))
  {
    hide ObserveStep, EnrollItem, StoreListingAndTask, CatalogOk, RowsKept;
    match step
    case Observe(f, offer) => ObserveOk(t, f, offer);
    case StoreListing(f) => if f.persistedUrl.Some? { ListingOk(t, f); } else { KeptSame(t); }
    case Enroll(sweep, row) => EnrollOk(t, sweep, row);
    case _ => QueueOk(t, step);
  }

  /** Over any run keys stay unique and rows stay what they are: a variant link is never
      replaced, a URL registered by hand never changes, and a closed queue row stays closed. */
  lemma {:induction false} RunKeepsCatalog(t: Tables, steps: seq<Step>)
    requires CatalogOk(t)
    ensures CatalogOk(Run(t, steps)) && RowsKept(t, Run(t, steps))
    decreases steps
  {
    hide Apply, CatalogOk, RowsKept;
    if steps == [] {
      KeptSame(t);
    } else {
      ApplyKeepsCatalog(t, steps[0]);
      RunKeepsCatalog(Apply(t, steps[0]), steps[1..]);
      RowsKeptTransitive(t, Apply(t, steps[0]), Run(t, steps));
    }
  }

  // ---------------------------------------------------------------- after an ingest

  ghost predicate HasListing(t: Tables, f: Fetch, l: nat) {
    l < |t.listings| && t.listings[l].retailerId == f.retailerId && t.listings[l].sku == f.sku
  }

  /** The listing's row as the fetch shows it, linked to the variant it was linked to before,
      if any, and to the fetch's otherwise; every other listing as it was. */
  ghost predicate ListingShown(t: Tables, u: Tables, f: Fetch, l: nat) {
    && HasListing(u, f, l)
    && u.listings[l].variantKey == Some(f.variantKey)
    && u.listings[l].unitCount == (if f.offers == [] then None else f.offers[0].unitCount)
    && (if l < |t.listings| && t.listings[l].variantId.Some?
        then
          && u.listings[l].variantId == t.listings[l].variantId
          && u.listings[l].matchStatus == t.listings[l].matchStatus
        else u.listings[l].variantId == Some(f.variantId) && u.listings[l].matchStatus == f.matchStatus)
    && (l >= |t.listings| ==> l == |t.listings| && Some(u.listings[l].url) == f.persistedUrl)
    && |u.listings| == (if l < |t.listings| then |t.listings| else |t.listings| + 1)
    && forall i :: 0 <= i < |t.listings| && i != l ==> u.listings[i] == t.listings[i]
  }

  /** Offer i of the fetch has its row, in the condition shown. */
  ghost predicate OfferShown(t: Tables, l: nat, offer: ParsedOffer) {
    exists o :: 0 <= o < |t.offers| && t.offers[o].listingId == l && t.offers[o].offerKey == offer.offerKey
             && t.offers[o].condition == offer.condition
  }

  /** Its seller is known, as what it is shown as. */
  ghost predicate SellerShown(t: Tables, f: Fetch, offer: ParsedOffer) {
    exists s :: 0 <= s < |t.sellers| && t.sellers[s].retailerId == f.retailerId
             && t.sellers[s].sellerKey == offer.sellerKey && t.sellers[s].sellerType == offer.sellerType
  }

  ghost predicate LastOfSeller(f: Fetch, j: nat) {
    j < |f.offers| && forall i :: j < i < |f.offers| ==> f.offers[i].sellerKey != f.offers[j].sellerKey
  }

  /** No later offer of the fetch has the key of offer j. */
  ghost predicate LastOfKey(f: Fetch, j: nat) {
    j < |f.offers| && forall i :: j < i < |f.offers| ==> f.offers[i].offerKey != f.offers[j].offerKey
  }

  lemma StoreShows(t: Tables, f: Fetch) returns (l: nat)
    requires f.persistedUrl.Some? && UniqueListings(t.listings)
    ensures ListingShown(t, StoreListingAndTask(t, f), f, l)
    ensures FindListing(StoreListingAndTask(t, f).listings, f.retailerId, f.sku) == Some(l)
  {
    l := UpsertListing(t.listings, f).1;
    FoundListing(StoreListingAndTask(t, f), f, l);
  }

  lemma FoundListing(t: Tables, f: Fetch, l: nat)
    requires UniqueListings(t.listings) && HasListing(t, f, l)
    ensures FindListing(t.listings, f.retailerId, f.sku) == Some(l)
  {
    var k := FindListing(t.listings, f.retailerId, f.sku);
    assert k.Some? && !(k.value < l) && !(l < k.value);
  }

  lemma TurnShows(t: Tables, f: Fetch, offer: ParsedOffer, l: nat)
    requires FindListing(t.listings, f.retailerId, f.sku) == Some(l) && f.persistedUrl.Some?
    requires !ObserveOffer(t, f, offer, l).Violation?
    ensures var u := ObserveStep(t, f, offer);
            u.listings == t.listings && OfferShown(u, l, offer) && SellerShown(u, f, offer)
  {
    hide DealStep, VerdictOf;
    var (t1, o) := WithOffer(t, f, offer, l);
    var u := ObserveStep(t, f, offer);
    assert u.offers == t1.offers && u.listings == t.listings && u.sellers == t1.sellers;
    assert u.offers[o].condition == offer.condition;
    var s := UpsertSeller(t.sellers, f.retailerId, offer.sellerKey, offer.sellerType).1;
    assert u.sellers[s].sellerKey == offer.sellerKey && u.sellers[s].sellerType == offer.sellerType;
  }

  /** An offer seen for the first time gets one new row, sold by the seller it is shown with; any
      other turn adds no offer row and changes at most the condition of its own. */
  lemma TurnOpensOffer(t: Tables, f: Fetch, offer: ParsedOffer, l: nat)
    requires FindListing(t.listings, f.retailerId, f.sku) == Some(l) && f.persistedUrl.Some?
    requires !ObserveOffer(t, f, offer, l).Violation?
    ensures var u := ObserveStep(t, f, offer); var n := |t.offers|;
            if forall o :: 0 <= o < n ==> t.offers[o].listingId != l || t.offers[o].offerKey != offer.offerKey
            then
              && |u.offers| == n + 1 && u.offers[..n] == t.offers && u.offers[n].sellerId < |u.sellers|
              && u.sellers[u.offers[n].sellerId] == Seller(f.retailerId, offer.sellerKey, offer.sellerType)
            else
              && |u.offers| == n
              && forall o :: 0 <= o < n && u.offers[o] != t.offers[o] ==>
                   t.offers[o].listingId == l && u.offers[o] == t.offers[o].(condition := offer.condition)
  {
    hide DealStep, VerdictOf;
    var (t1, o) := WithOffer(t, f, offer, l);
    var u := ObserveStep(t, f, offer);
    assert u.offers == t1.offers && u.sellers == t1.sellers;
    SellerRow(t.sellers, f.retailerId, offer);
    assert forall j :: 0 <= j < |t.offers| && t1.offers[j] != t.offers[j] ==> j == o;
  }

  lemma SellerRow(sellers: seq<Seller>, retailerId: int, offer: ParsedOffer)
    ensures var (u, s) := UpsertSeller(sellers, retailerId, offer.sellerKey, offer.sellerType);
            s < |u| && u[s] == Seller(retailerId, offer.sellerKey, offer.sellerType)
  {
  }

  lemma TurnKeepsSeller(t: Tables, f: Fetch, offer: ParsedOffer, other: ParsedOffer)
    requires SellerShown(t, f, other) && other.sellerKey != offer.sellerKey
    ensures SellerShown(ObserveStep(t, f, offer), f, other)
  {
    hide DealStep, VerdictOf;
    var s :| 0 <= s < |t.sellers| && t.sellers[s].retailerId == f.retailerId
          && t.sellers[s].sellerKey == other.sellerKey && t.sellers[s].sellerType == other.sellerType;
    var u := ObserveStep(t, f, offer);
    assert u.sellers[s] == t.sellers[s];
  }

  lemma TurnKeepsShown(t: Tables, f: Fetch, offer: ParsedOffer, l: nat, other: ParsedOffer)
    requires FindListing(t.listings, f.retailerId, f.sku) == Some(l) && f.persistedUrl.Some?
    requires OfferShown(t, l, other) && other.offerKey != offer.offerKey
    ensures OfferShown(ObserveStep(t, f, offer), l, other)
  {
    hide DealStep, VerdictOf;
    var o :| 0 <= o < |t.offers| && t.offers[o].listingId == l && t.offers[o].offerKey == other.offerKey
          && t.offers[o].condition == other.condition;
    var u := ObserveStep(t, f, offer);
    assert u.offers[o] == t.offers[o];
  }

  lemma {:induction false} LoopShows(t: Tables, f: Fetch, i: nat, l: nat)
    requires i <= |f.offers| && ObserveAll(t, f, i).Some?
    requires FindListing(t.listings, f.retailerId, f.sku) == Some(l) && f.persistedUrl.Some?
    requires forall j :: 0 <= j < i && LastOfKey(f, j) ==> OfferShown(t, l, f.offers[j])
    requires forall j :: 0 <= j < i && LastOfSeller(f, j) ==> SellerShown(t, f, f.offers[j])
    ensures var u := ObserveAll(t, f, i).value;
            && u.listings == t.listings
            && (forall j :: 0 <= j < |f.offers| && LastOfKey(f, j) ==> OfferShown(u, l, f.offers[j]))
            && (forall j :: 0 <= j < |f.offers| && LastOfSeller(f, j) ==> SellerShown(u, f, f.offers[j]))
    decreases |f.offers| - i
  {
    hide ObserveOffer, OfferShown, SellerShown;
    if i < |f.offers| {
      TurnShows(t, f, f.offers[i], l);
      var u := ObserveStep(t, f, f.offers[i]);
      forall j | 0 <= j < i + 1 && LastOfKey(f, j) ensures OfferShown(u, l, f.offers[j]) {
        if j < i { TurnKeepsShown(t, f, f.offers[i], l, f.offers[j]); }
      }
      forall j | 0 <= j < i + 1 && LastOfSeller(f, j) ensures SellerShown(u, f, f.offers[j]) {
        if j < i { TurnKeepsSeller(t, f, f.offers[i], f.offers[j]); }
      }
      LoopShows(u, f, i + 1, l);
    }
  }

  /** A completed ingest leaves the listing, and the last offer of each key and of each seller,
      as shown. */
  lemma IngestShows(t: Tables, f: Fetch) returns (l: nat)
    requires UniqueListings(t.listings) && f.persistedUrl.Some? && IngestSucceeds(t, f)
    ensures ListingShown(t, Ingest(t, f), f, l)
    ensures forall j :: 0 <= j < |f.offers| && LastOfKey(f, j) ==> OfferShown(Ingest(t, f), l, f.offers[j])
    ensures forall j :: 0 <= j < |f.offers| && LastOfSeller(f, j) ==> SellerShown(Ingest(t, f), f, f.offers[j])
  {
    hide StoreListingAndTask, ObserveAll;
    l := StoreShows(t, f);
    LoopShows(StoreListingAndTask(t, f), f, 0, l);
  }
}
