/** Every way the program writes these tables, as total functions from tables to tables:
    the turns of ingest_parsed_listing, the two sweeps and the queue's task updates. A run
    is a sequence of such steps. */
module Steps {
  import opened Core
  import opened Validate
  import opened Schema
  import opened DealRules
  import opened EnrollRules

  // ---------------------------------------------------------------- upserts (store/listings.py)

  function UpsertSeller(sellers: seq<Seller>, retailerId: int, key: string, kind: SellerType): (seq<Seller>, nat) {
    var i := FindSeller(sellers, retailerId, key);
    if i.Some? then (sellers[i.value := sellers[i.value].(sellerType := kind)], i.value)
    else (sellers + [Seller(retailerId, key, kind)], |sellers|)
  }

  function MergeListing(row: Listing, f: Fetch): Listing {
    row.(variantKey := Some(f.variantKey), unitCount := ListingUnitCount(f),
         variantId := if row.variantId.Some? then row.variantId else Some(f.variantId),
         matchStatus := if row.variantId.None? then f.matchStatus else row.matchStatus)
  }

  function UpsertListing(listings: seq<Listing>, f: Fetch): (r: (seq<Listing>, nat))
    requires f.persistedUrl.Some?
    ensures r.1 < |r.0| && r.0[r.1].retailerId == f.retailerId && r.0[r.1].sku == f.sku
  {
    var i := FindListing(listings, f.retailerId, f.sku);
    if i.Some? then (listings[i.value := MergeListing(listings[i.value], f)], i.value)
    else (listings + [Listing(f.retailerId, f.sku, f.persistedUrl.value, Some(f.variantKey), ListingUnitCount(f),
                              Some(f.variantId), f.matchStatus)], |listings|)
  }

  function UpsertOffer(offers: seq<Offer>, listingId: nat, sellerId: nat, offerKey: string, condition: Condition)
    : (r: (seq<Offer>, nat))
    ensures r.1 < |r.0| && r.0[r.1].listingId == listingId && r.0[r.1].offerKey == offerKey
    ensures r.0[r.1].condition == condition
  {
    var i := FindOffer(offers, listingId, offerKey);
    if i.Some? then (offers[i.value := offers[i.value].(condition := condition)], i.value)
    else (offers + [Offer(listingId, sellerId, offerKey, condition)], |offers|)
  }

  /** get_or_create_crawl_task, called only when the caller leased no task of its own. */
  function EnsureFetchTask(tasks: seq<Task>, f: Fetch): seq<Task>
    requires f.persistedUrl.Some?
  {
    var key := FetchKey(f.kind, f.retailerSlug, f.sku, f.snapshotRef);
    if !f.ownsTask || FindTask(tasks, key).Some? then tasks
    else tasks + [Task(f.retailerId, f.kind, 30, f.persistedUrl.value, f.category, None, key, f.clock.now, None, Done)]
  }

  // ---------------------------------------------------------------- one offer of one fetch

  function VerdictOf(t: Tables, f: Fetch, offer: ParsedOffer, o: nat): Verdict {
    ValidateObservation(
      ObservationInput(offer.price, true, f.category, offer.claimed, offer.onClearance, offer.unitCount,
                       Some(f.variantKey), true, f.page == UsedListing),
      ObservationContext(LastOkPrice(t.observations, o), Some(f.variantKey), ListingUnitCount(f), None, None, None,
                         None),
      f.bands)
  }

  /** The CHECK constraints of price_observations that a parsed offer can violate. */
  predicate RowAllowed(offer: ParsedOffer) {
    && (offer.shipping.Some? ==> offer.shipping.value >= 0)
    && (offer.claimed.Some? ==> offer.claimed.value > 0)
  }

  function ObservationRow(f: Fetch, offer: ParsedOffer, o: nat, quality: Quality): Observation {
    Observation(o, f.at, f.dayEt, offer.price, offer.shipping, offer.claimed, offer.onClearance, offer.availability,
                offer.unitCount, Some(f.variantKey), quality, f.snapshotRef)
  }

  /** RecordedObservation: the row's id, this fetch's verdict, and whether the row was there. */
  datatype Recording = Recording(obs: nat, verdict: Verdict, wasDuplicate: bool)

  /** Violation aborts the transaction; Replay is a fetch already recorded for this offer. */
  datatype OfferResult =
    | Violation
    | Replay(tables: Tables, offerId: nat, obs: nat, verdict: Verdict)
    | Stored(tables: Tables, offerId: nat, obs: nat, verdict: Verdict, action: Option<DealAction>)

  function WithOffer(t: Tables, f: Fetch, offer: ParsedOffer, listingId: nat): (r: (Tables, nat))
    ensures r.1 < |r.0.offers| && r.0.offers[r.1].listingId == listingId && r.0.listings == t.listings
  {
    var (sellers, s) := UpsertSeller(t.sellers, f.retailerId, offer.sellerKey, offer.sellerType);
    var (offers, o) := UpsertOffer(t.offers, listingId, s, offer.offerKey, offer.condition);
    (t.(sellers := sellers, offers := offers), o)
  }

  function ObserveOffer(t: Tables, f: Fetch, offer: ParsedOffer, listingId: nat): OfferResult
    requires listingId < |t.listings| && f.persistedUrl.Some?
  {
    var (t1, o) := WithOffer(t, f, offer, listingId);
    var v := VerdictOf(t, f, offer, o);
    var seen := FindReplay(t.observations, o, f.snapshotRef);
    if seen.Some? then Replay(t1, o, seen.value, v)
    else if !RowAllowed(offer) then Violation
    else
      var obs := |t.observations|;
      var t2 := t1.(observations := t.observations + [ObservationRow(f, offer, o, v.quality)]);
      var out := DealStep(t2, f, offer, o, obs, v);
      Stored(t2.(deals := out.deals, tasks := out.tasks), o, obs, v, out.action)
  }

  // ---------------------------------------------------------------- steps and runs

  datatype Step =
    | StoreListing(fetch: Fetch)
    | Observe(fetch: Fetch, offer: ParsedOffer)
    | RefuseOverdue(retailerId: int, now: Time)
    | ExpireStale(now: Time, staleHours: int)
    | Lease(taskId: nat)
    | Finish(taskId: nat, status: TaskStatus)
    | Enroll(sweep: Sweep, row: GridRow)
    | DisableStale(retailerId: int, now: Time)

  /** The queue leases only what it just selected as QUEUED, and finishes what it selected. */
  function LeaseTask(tasks: seq<Task>, i: nat): seq<Task> {
    if i < |tasks| && tasks[i].status == Queued then tasks[i := tasks[i].(status := Leased)] else tasks
  }

  function FinishTask(tasks: seq<Task>, i: nat, status: TaskStatus): seq<Task> {
    if i < |tasks| && status != Queued && status != Leased then tasks[i := tasks[i].(status := status)] else tasks
  }

  function StoreListingAndTask(t: Tables, f: Fetch): Tables
    requires f.persistedUrl.Some?
  {
    t.(listings := UpsertListing(t.listings, f).0, tasks := EnsureFetchTask(t.tasks, f))
  }

  /** One offer's turn, as a step: no listing row, no URL or a violated CHECK leaves no trace. */
  function ObserveStep(t: Tables, f: Fetch, offer: ParsedOffer): Tables {
    var l := FindListing(t.listings, f.retailerId, f.sku);
    if l.None? || f.persistedUrl.None? then t else
      match ObserveOffer(t, f, offer, l.value)
      case Violation => t
      case Replay(t', _, _, _) => t'
      case Stored(t', _, _, _, _) => t'
  }

  function Apply(t: Tables, step: Step): Tables {
    match step
    case StoreListing(f) => if f.persistedUrl.None? then t else StoreListingAndTask(t, f)
    case Observe(f, offer) => ObserveStep(t, f, offer)
    case RefuseOverdue(retailerId, now) =>
      t.(tasks := ExpireOverdueTasks(t.tasks, retailerId, now), deals := RefuseOverdueDeals(t, retailerId, now))
    case ExpireStale(now, hours) => t.(deals := ExpireStaleDeals(t, now, hours))
    case Lease(i) => t.(tasks := LeaseTask(t.tasks, i))
    case Finish(i, status) => t.(tasks := FinishTask(t.tasks, i, status))
    case Enroll(sweep, row) => EnrollItem(t, EnrollOutcome(0, 0, 0, 0, 0), sweep, row).0
    case DisableStale(retailerId, now) => t.(tracked := DisableStaleUrls(t, retailerId, now))
  }

  function Run(t: Tables, steps: seq<Step>): Tables
    decreases steps
  {
    if steps == [] then t else Run(Apply(t, steps[0]), steps[1..])
  }

  lemma {:induction false} RunConcat(t: Tables, a: seq<Step>, b: seq<Step>)
    ensures Run(t, a + b) == Run(Run(t, a), b)
    decreases a
  {
    if a == [] {
      assert a + b == b;
    } else {
      assert (a + b)[1..] == a[1..] + b;
      RunConcat(Apply(t, a[0]), a[1..], b);
    }
  }

  // ---------------------------------------------------------------- a whole ingest

  /** The offer loop from offer i on; None when a CHECK aborts it. */
  function ObserveAll(t: Tables, f: Fetch, i: nat): Option<Tables>
    requires i <= |f.offers|
    decreases |f.offers| - i
  {
    if i == |f.offers| then Some(t) else
      var l := FindListing(t.listings, f.retailerId, f.sku);
      if l.None? || f.persistedUrl.None? then Some(t) else
        match ObserveOffer(t, f, f.offers[i], l.value)
        case Violation => None
        case Replay(t', _, _, _) => ObserveAll(t', f, i + 1)
        case Stored(t', _, _, _, _) => ObserveAll(t', f, i + 1)
  }

  /** What an ingest reports: one offer id and one observation for each offer, and the deal
      actions. */
  datatype IngestLog = IngestLog(offerIds: seq<nat>, observations: seq<Recording>, actions: seq<DealAction>)

  const EmptyLog := IngestLog([], [], [])

  function LogOf(r: OfferResult): IngestLog
    requires !r.Violation?
  {
    match r
    case Replay(_, o, obs, v) => IngestLog([o], [Recording(obs, v, true)], [])
    case Stored(_, o, obs, v, action) =>
      IngestLog([o], [Recording(obs, v, false)], if action.Some? then [action.value] else [])
  }

  function Joined(a: IngestLog, b: IngestLog): IngestLog {
    IngestLog(a.offerIds + b.offerIds, a.observations + b.observations, a.actions + b.actions)
  }

  /** What the loop reports from offer i on. */
  function ObserveLog(t: Tables, f: Fetch, i: nat): IngestLog
    requires i <= |f.offers|
    decreases |f.offers| - i
  {
    var l := FindListing(t.listings, f.retailerId, f.sku);
    if i == |f.offers| || l.None? || f.persistedUrl.None? then EmptyLog else
      var r := ObserveOffer(t, f, f.offers[i], l.value);
      if r.Violation? then EmptyLog else Joined(LogOf(r), ObserveLog(r.tables, f, i + 1))
  }

  /** ingest_parsed_listing: a listing without a safe URL is refused before any write, and a
      violated CHECK leaves nothing behind. */
  function Ingest(t: Tables, f: Fetch): Tables {
    if f.persistedUrl.None? then t else
      var done := ObserveAll(StoreListingAndTask(t, f), f, 0);
      if done.Some? then done.value else t
  }

  /** Whether the ingest goes through rather than aborting on a CHECK. */
  predicate IngestSucceeds(t: Tables, f: Fetch) {
    f.persistedUrl.None? || ObserveAll(StoreListingAndTask(t, f), f, 0).Some?
  }

  datatype IngestOutcome = IngestOutcome(listingId: Option<nat>, log: IngestLog)

  /** The reported outcome of an ingest that goes through. */
  function OutcomeOf(t: Tables, f: Fetch): IngestOutcome {
    if f.persistedUrl.None? then IngestOutcome(None, EmptyLog) else
      var t1 := StoreListingAndTask(t, f);
      IngestOutcome(FindListing(t1.listings, f.retailerId, f.sku), ObserveLog(t1, f, 0))
  }

  function OfferSteps(f: Fetch, i: nat): seq<Step>
    requires i <= |f.offers|
    decreases |f.offers| - i
  {
    if i == |f.offers| then [] else [Observe(f, f.offers[i])] + OfferSteps(f, i + 1)
  }

  function IngestSteps(t: Tables, f: Fetch): seq<Step> {
    if f.persistedUrl.None? || !IngestSucceeds(t, f) then []
    else [StoreListing(f)] + OfferSteps(f, 0)
  }

  lemma {:induction false} ObserveAllIsRun(t: Tables, f: Fetch, i: nat)
    requires i <= |f.offers| && ObserveAll(t, f, i).Some?
    requires f.persistedUrl.Some? && FindListing(t.listings, f.retailerId, f.sku).Some?
    ensures ObserveAll(t, f, i) == Some(Run(t, OfferSteps(f, i)))
    decreases |f.offers| - i
  {
    if i < |f.offers| {
      var l := FindListing(t.listings, f.retailerId, f.sku).value;
      var t' := ObserveStep(t, f, f.offers[i]);
      assert t'.listings == t.listings;
      ObserveAllIsRun(t', f, i + 1);
      var steps := OfferSteps(f, i);
      assert steps[0] == Observe(f, f.offers[i]) && steps[1..] == OfferSteps(f, i + 1);
    }
  }

  /** An ingest is a run of its steps, so whatever every step keeps every ingest keeps, at
      each intermediate point too. */
  lemma IngestIsRun(t: Tables, f: Fetch)
    ensures Ingest(t, f) == Run(t, IngestSteps(t, f))
  {
    if IngestSteps(t, f) != [] {
      var t1 := StoreListingAndTask(t, f);
      assert FindListing(t1.listings, f.retailerId, f.sku).Some?;
      ObserveAllIsRun(t1, f, 0);
      var steps := IngestSteps(t, f);
      assert steps[0] == StoreListing(f) && steps[1..] == OfferSteps(f, 0);
    }
  }
}
