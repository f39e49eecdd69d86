/** fpt/store/pipeline.py: one fetch of one listing, from the rows it stores to the deal it
    touches. */
module Pipeline {
  import opened Core
  import opened Validate
  import opened Confirm
  import opened Schema
  import opened DealRules
  import opened Steps
  import opened Database
  import opened Stores

  method RunDetection(db: Database, f: Fetch, offer: ParsedOffer, o: nat, obs: nat) returns (action: DealAction)
    requires o < |db.offers| && db.offers[o].listingId < |db.listings|
    requires offer.price.Some? && f.persistedUrl.Some?
    modifies db
    ensures var out := DetectOutcome(old(db.View()), f, offer, o, obs);
            db.View() == old(db.View()).(deals := out.deals, tasks := out.tasks) && out.action == Some(action)
  {
    var row := DetectedDeal(db.View(), f, offer, o, obs);
    if row.None? { return NoDeal; }
    var id := CreateCandidate(db, row.value);
    if !f.skipConfirmTask {
      var _ := EnqueueConfirm(db, f.retailerId, id, f.persistedUrl.value, f.category, f.at);
    }
    return CandidateCreated(id);
  }

  method TryConfirm(db: Database, f: Fetch, offer: ParsedOffer, o: nat, obs: nat,
                    v: Verdict)
    returns (action: Option<DealAction>)
    requires o < |db.offers| && db.offers[o].listingId < |db.listings|
    modifies db
    ensures var t := old(db.View());
            var target := if offer.price.Some? then ConfirmTarget(t.deals, o, obs, f.at, RULES) else None;
            if target.None? then db.View() == t && action.None?
            else
              var out := ConfirmOutcome(t, f, offer, obs, v, target.value);
              db.View() == t.(deals := out.deals) && action == out.action
  {
    var n := 0;
    while n < |RULES|
      invariant n <= |RULES| && db.View() == old(db.View())
      invariant offer.price.Some? ==>
                  ConfirmTarget(db.deals, o, obs, f.at, RULES) == ConfirmTarget(db.deals, o, obs, f.at, RULES[n..])
    {
      var open := FindOpenDeal(db.deals, o, RULES[n]);
      n := n + 1;
      if open.None? { continue; }
      var d := db.deals[open.value];
      if d.status != AsCandidate && d.status != Confirming { continue; }
      if d.detectedObs == obs { continue; }
      if f.at - d.detectedAt < MIN_CONFIRM_DELAY { continue; }
      if offer.price.None? { continue; }
      var c := BuildConfirmContext(db.View(), d, f, offer, v);
      var result := ConfirmCandidate(c);
      ApplyConfirm(db, open.value, obs, result, c, f.clock.now);
      return Some(Confirmed(open.value, result));
    }
    return None;
  }

  method TryRecheckActive(db: Database, f: Fetch, offer: ParsedOffer, o: nat,
                          obs: nat)
    returns (action: Option<DealAction>)
    requires o < |db.offers| && db.offers[o].listingId < |db.listings|
    modifies db
    ensures var t := old(db.View());
            var target := if offer.price.Some? then RecheckTarget(t.deals, o, RULES) else None;
            if target.None? then db.View() == t && action.None?
            else
              var out := RecheckOutcome(t, f, offer, obs, target.value);
              db.View() == t.(deals := out.deals) && action == out.action
  {
    var n := 0;
    while n < |RULES|
      invariant n <= |RULES| && db.View() == old(db.View())
      invariant offer.price.Some? ==> RecheckTarget(db.deals, o, RULES) == RecheckTarget(db.deals, o, RULES[n..])
    {
      var open := FindOpenDeal(db.deals, o, RULES[n]);
      n := n + 1;
      if open.None? || db.deals[open.value].status != Active { continue; }
      var prices := LandedPrice(offer);
      if prices.0.None? { continue; }
      var d := db.deals[open.value];
      var compare := if d.rule == Detect.UsedVsCurrentNew && prices.1.Some? then prices.1.value else prices.0.value;
      var expired := RefreshOrExpireActiveDeal(db, f, offer, open.value, obs, compare, prices.1);
      return Some(if expired.Some? then ExpiredActive(open.value, expired.value) else Refreshed(open.value));
    }
    return None;
  }

  /** The body of the offer loop. */
  method IngestOffer(db: Database, f: Fetch, offer: ParsedOffer, listingId: nat) returns (r: OfferResult)
    requires listingId < |db.listings| && f.persistedUrl.Some?
    modifies db
    ensures r == ObserveOffer(old(db.View()), f, offer, listingId)
    ensures !r.Violation? ==> db.View() == r.tables
  {
    var sellerId := GetOrCreateSeller(db, f.retailerId, offer.sellerKey, offer.sellerType);
    var o := UpsertOfferRow(db, listingId, sellerId, offer.offerKey, offer.condition);
    assert (db.View(), o) == WithOffer(old(db.View()), f, offer, listingId);
    var v := VerdictOf(db.View(), f, offer, o);
    var recorded := RecordObservation(db, f, offer, o, v.quality);
    if recorded.CheckViolation? { return Violation; }
    if recorded.Duplicate? { return Replay(db.View(), o, recorded.obs, v); }
    var obs := recorded.obs;
    ghost var mid := db.View();
    var action: Option<DealAction> := None;
    if v.quality == Ok {
      action := TryRecheckActive(db, f, offer, o, obs);
    }
    if action.None? {
      action := TryConfirm(db, f, offer, o, obs, v);
      if action.None? && v.quality == Ok && offer.price.Some? {
        var found := RunDetection(db, f, offer, o, obs);
        action := Some(found);
      }
    }
    assert var out := DealStep(mid, f, offer, o, obs, v);
           db.View() == mid.(deals := out.deals, tasks := out.tasks) && action == out.action;
    return Stored(db.View(), o, obs, v, action);
  }

  /** The loop at offer n: what the whole loop yields is what it reported so far and what is left. */
  ghost predicate Remaining(all: Option<Tables>, whole: IngestLog, t: Tables, f: Fetch, n: nat, listingId: nat,
                            log: IngestLog) {
    && n <= |f.offers| && f.persistedUrl.Some?
    && FindListing(t.listings, f.retailerId, f.sku) == Some(listingId)
    && all == ObserveAll(t, f, n)
    && whole == Joined(log, ObserveLog(t, f, n))
  }

  lemma JoinedTwice(a: IngestLog, b: IngestLog, c: IngestLog)
    ensures Joined(a, Joined(b, c)) == Joined(Joined(a, b), c)
    ensures Joined(EmptyLog, a) == a && Joined(a, EmptyLog) == a
  {
    assert a.offerIds + (b.offerIds + c.offerIds) == a.offerIds + b.offerIds + c.offerIds;
    assert a.observations + (b.observations + c.observations) == a.observations + b.observations + c.observations;
    assert a.actions + (b.actions + c.actions) == a.actions + b.actions + c.actions;
  }

  lemma RemainingStep(all: Option<Tables>, whole: IngestLog, t: Tables, f: Fetch, n: nat, listingId: nat,
                      log: IngestLog)
    requires n < |f.offers| && Remaining(all, whole, t, f, n, listingId, log)
    ensures var r := ObserveOffer(t, f, f.offers[n], listingId);
            if r.Violation? then all.None?
            else Remaining(all, whole, r.tables, f, n + 1, listingId, Joined(log, LogOf(r)))
  {
    hide Joined, LogOf, DealStep, VerdictOf;
    var r := ObserveOffer(t, f, f.offers[n], listingId);
    if !r.Violation? { JoinedTwice(log, LogOf(r), ObserveLog(r.tables, f, n + 1)); }
  }

  /** The offer loop; it stops at the first violated CHECK. */
  method IngestOffers(db: Database, f: Fetch, listingId: nat) returns (ok: bool, log: IngestLog)
    requires f.persistedUrl.Some? && FindListing(db.listings, f.retailerId, f.sku) == Some(listingId)
    modifies db
    ensures ObserveAll(old(db.View()), f, 0) == if ok then Some(db.View()) else None
    ensures ok ==> log == ObserveLog(old(db.View()), f, 0)
  {
    ghost var all, whole := ObserveAll(db.View(), f, 0), ObserveLog(db.View(), f, 0);
    log := EmptyLog;
    JoinedTwice(whole, log, log);
    var n := 0;
    while n < |f.offers|
      invariant Remaining(all, whole, db.View(), f, n, listingId, log)
    {
      RemainingStep(all, whole, db.View(), f, n, listingId, log);
      var r := IngestOffer(db, f, f.offers[n], listingId);
      if r.Violation? { return false, log; }
      log := Joined(log, LogOf(r));
      n := n + 1;
    }
    JoinedTwice(log, log, log);
    return true, log;
  }

  /** ingest_parsed_listing. Without a safe URL nothing is written; a violated CHECK rolls
      the whole transaction back. */
  method IngestParsedListing(db: Database, f: Fetch) returns (ok: bool, outcome: IngestOutcome)
    modifies db
    ensures db.View() == Ingest(old(db.View()), f)
    ensures ok <==> IngestSucceeds(old(db.View()), f)
    ensures ok ==> outcome == OutcomeOf(old(db.View()), f)
  {
    outcome := IngestOutcome(None, EmptyLog);
    if f.persistedUrl.None? { return true, outcome; }
    var saved := db.View();
    var listingId := UpsertListingRow(db, f);
    if f.ownsTask {
      var _ := GetOrCreateCrawlTask(db, f);
    }
    assert db.View() == StoreListingAndTask(saved, f);
    ListingIdIsFirst(saved, f);
    var log;
    ok, log := IngestOffers(db, f, listingId);
    if ok {
      outcome := IngestOutcome(Some(listingId), log);
    } else {
      db.Rollback(saved);
    }
  }

  lemma ListingIdIsFirst(t: Tables, f: Fetch)
    requires f.persistedUrl.Some?
    ensures var (listings, l) := UpsertListing(t.listings, f);
            l < |listings| && FindListing(listings, f.retailerId, f.sku) == Some(l)
  {
    var (listings, l) := UpsertListing(t.listings, f);
    assert forall j :: 0 <= j < |t.listings| ==>
        listings[j].retailerId == t.listings[j].retailerId && listings[j].sku == t.listings[j].sku;
    assert FindListing(listings, f.retailerId, f.sku).Some?;
  }
}
