/** The writing functions of fpt/store/listings.py, observations.py and deals.py, and the
    deadline sweep of fpt/scheduler/queue.py, as methods on the database. */
module Stores {
  import opened Core
  import opened Percent
  import opened Validate
  import opened Confirm
  import opened Schema
  import opened DealRules
  import opened Steps
  import opened Database

  // ---------------------------------------------------------------- listings.py

  method GetOrCreateSeller(db: Database, retailerId: int, key: string, kind: SellerType) returns (id: nat)
    modifies db
    ensures var (sellers, s) := UpsertSeller(old(db.sellers), retailerId, key, kind);
            db.View() == old(db.View()).(sellers := sellers) && id == s
  {
    var found := FindSeller(db.sellers, retailerId, key);
    match found
    case Some(i) =>
      db.sellers := db.sellers[i := db.sellers[i].(sellerType := kind)];
      return i;
    case None =>
      id := |db.sellers|;
      db.sellers := db.sellers + [Seller(retailerId, key, kind)];
  }

  method UpsertListingRow(db: Database, f: Fetch) returns (id: nat)
    requires f.persistedUrl.Some?
    modifies db
    ensures var (listings, l) := UpsertListing(old(db.listings), f);
            db.View() == old(db.View()).(listings := listings) && id == l
  {
    var found := FindListing(db.listings, f.retailerId, f.sku);
    match found
    case Some(i) =>
      var row := db.listings[i];
      row := row.(variantKey := Some(f.variantKey), unitCount := ListingUnitCount(f));
      if row.variantId.None? {
        row := row.(variantId := Some(f.variantId), matchStatus := f.matchStatus);
      }
      db.listings := db.listings[i := row];
      return i;
    case None =>
      id := |db.listings|;
      db.listings := db.listings + [Listing(f.retailerId, f.sku, f.persistedUrl.value, Some(f.variantKey),
                                            ListingUnitCount(f), Some(f.variantId), f.matchStatus)];
  }

  method UpsertOfferRow(db: Database, listingId: nat, sellerId: nat, offerKey: string,
                        condition: Condition)
    returns (id: nat)
    modifies db
    ensures var (offers, o) := UpsertOffer(old(db.offers), listingId, sellerId, offerKey, condition);
            db.View() == old(db.View()).(offers := offers) && id == o
  {
    var found := FindOffer(db.offers, listingId, offerKey);
    match found
    case Some(i) =>
      db.offers := db.offers[i := db.offers[i].(condition := condition)];
      return i;
    case None =>
      id := |db.offers|;
      db.offers := db.offers + [Offer(listingId, sellerId, offerKey, condition)];
  }

  // ---------------------------------------------------------------- observations.py

  method GetOrCreateCrawlTask(db: Database, f: Fetch) returns (id: nat)
    requires f.persistedUrl.Some? && f.ownsTask
    modifies db
    ensures db.View() == old(db.View()).(tasks := EnsureFetchTask(old(db.tasks), f))
    ensures id < |db.tasks| && db.tasks[id].dedupeKey == FetchKey(f.kind, f.retailerSlug, f.sku, f.snapshotRef)
    ensures id == |old(db.tasks)| || FindTask(old(db.tasks), db.tasks[id].dedupeKey) == Some(id)
  {
    var key := FetchKey(f.kind, f.retailerSlug, f.sku, f.snapshotRef);
    var found := FindTask(db.tasks, key);
    if found.Some? { return found.value; }
    id := |db.tasks|;
    db.tasks := db.tasks
        + [Task(f.retailerId, f.kind, 30, f.persistedUrl.value, f.category, None, key, f.clock.now, None, Done)];
  }

  datatype Recorded = Duplicate(obs: nat) | CheckViolation | Inserted(obs: nat)

  method RecordObservation(db: Database, f: Fetch, offer: ParsedOffer, o: nat, quality: Quality) returns (r: Recorded)
    modifies db
    ensures var seen := FindReplay(old(db.observations), o, f.snapshotRef);
            r == if seen.Some? then Duplicate(seen.value)
                 else if !RowAllowed(offer) then CheckViolation
                 else Inserted(|old(db.observations)|)
    ensures !r.Inserted? ==> db.View() == old(db.View())
    ensures r.Inserted? ==>
              var row := ObservationRow(f, offer, o, quality);
              db.View() == old(db.View()).(observations := old(db.observations) + [row])
  {
    var seen := FindReplay(db.observations, o, f.snapshotRef);
    if seen.Some? { return Duplicate(seen.value); }
    if !RowAllowed(offer) { return CheckViolation; }
    r := Inserted(|db.observations|);
    db.observations := db.observations + [ObservationRow(f, offer, o, quality)];
  }

  // ---------------------------------------------------------------- deals.py

  method CreateCandidate(db: Database, row: Deal) returns (id: nat)
    modifies db
    ensures var (deals, i) := CreateCandidateDeal(old(db.deals), row);
            db.View() == old(db.View()).(deals := deals) && id == i
  {
    // The INSERT fails exactly when the partial unique index already holds an open row.
    var existing := FindOpenDeal(db.deals, row.offerId, row.rule);
    if existing.Some? { return existing.value; }
    id := |db.deals|;
    db.deals := db.deals + [row];
  }

  method EnqueueConfirm(db: Database, retailerId: int, dealId: nat, url: string, category: string,
                        detectedAt: Time)
    returns (queued: bool)
    modifies db
    ensures db.View()
              == old(db.View()).(tasks :=
                                 EnqueueConfirmTask(old(db.tasks), retailerId, dealId, url, category, detectedAt))
    ensures queued <==> FindOpenTask(old(db.tasks), ConfirmKey(dealId)).None?
  {
    if FindOpenTask(db.tasks, ConfirmKey(dealId)).Some? { return false; }
    var notBefore := detectedAt + MIN_CONFIRM_DELAY;
    var deadline := detectedAt + CONFIRM_DEADLINE;
    db.tasks := db.tasks
        + [Task(retailerId, ConfirmTask, 10, url, category, Some(dealId), ConfirmKey(dealId), notBefore, Some(deadline),
                Queued)];
    return true;
  }

  method ApplyConfirm(db: Database, dealId: nat, obs: nat, result: ConfirmResult, c: ConfirmContext, now: Time)
    requires dealId < |db.deals|
    modifies db
    ensures db.View()
              == old(db.View()).(deals :=
                                 old(db.deals)[dealId :=
                                               ApplyConfirmResult(old(db.deals)[dealId], obs, result, c, now)])
  {
    var row := db.deals[dealId];
    match result {
      case ToRejected(why) =>
        row := row.(status := Refused, confirmingObs := Some(obs), rejectReason := Some(why));
      case _ =>
        row := row.(confirmingObs := Some(obs), lastConfirmedObs := Some(obs), price := c.confirmingPrice,
                    discount := c.discount);
        if c.reference.Some? {
          row := row.(reference := c.reference.value);
        }
        if result == ToActive {
          row := row.(status := Active, held := false, confirmedAt := Some(now));
        } else {
          row := row.(status := HeldReview, held := true);
        }
    }
    db.deals := db.deals[dealId := row];
  }

  method ExpireActiveDeal(db: Database, dealId: nat, why: ExpireReason, now: Time)
    requires dealId < |db.deals|
    modifies db
    ensures db.View() == old(db.View()).(deals := old(db.deals)[dealId := ExpireDeal(old(db.deals)[dealId], why, now)])
  {
    db.deals :=
        db.deals[dealId := db.deals[dealId].(status := Expired, expiredAt := Some(now), expireReason := Some(why))];
  }

  method RefreshOrExpireActiveDeal(db: Database, f: Fetch, offer: ParsedOffer, dealId: nat, obs: nat, compare: int,
                                   landed: Option<int>)
    returns (expired: Option<ExpireReason>)
    requires dealId < |db.deals| && db.deals[dealId].offerId < |db.offers|
    requires db.offers[db.deals[dealId].offerId].listingId < |db.listings|
    modifies db
    ensures var t, d := old(db.View()), old(db.deals)[dealId];
            var e := RecheckDeal(d, obs, compare, landed, offer.availability, FreshReference(t, d, offer, f.clock),
                                 f.clock.now);
            && db.View() == t.(deals := t.deals[dealId := e])
            && (expired.Some? ==> e == ExpireDeal(d, expired.value, f.clock.now))
            && (expired.None? ==>
                e.status == d.status && e.expireReason == d.expireReason && e.lastConfirmedObs == Some(obs))
  {
    var d := db.deals[dealId];
    if offer.availability != InStock && offer.availability != StoreOnly {
      ExpireActiveDeal(db, dealId, SoldOut, f.clock.now);
      return Some(SoldOut);
    }
    var reference := FreshReference(db.View(), d, offer, f.clock);
    if reference.None? || reference.value <= 0 {
      ExpireActiveDeal(db, dealId, ReferenceLost, f.clock.now);
      return Some(ReferenceLost);
    }
    var discount := Pct(compare, reference.value);
    if !WithinTolerance(compare, d.price) || discount < MIN_DISCOUNT {
      ExpireActiveDeal(db, dealId, PriceRecovered, f.clock.now);
      return Some(PriceRecovered);
    }
    db.deals := db.deals[dealId := d.(price := compare, landed := landed, discount := discount,
                                      reference := reference.value, lastConfirmedObs := Some(obs))];
    return None;
  }

  method ExpireStale(db: Database, now: Time, staleHours: int) returns (count: nat)
    modifies db
    ensures db.View() == Apply(old(db.View()), Step.ExpireStale(now, staleHours))
    ensures |db.deals| == |old(db.deals)| && count == CountChanged(old(db.deals), db.deals)
    ensures forall i :: 0 <= i < |db.deals| ==>
              var d, e := old(db.deals)[i], db.deals[i];
              && (e.status == Active <==>
                  d.status == Active && HasRecentOk(db.observations, d.offerId, now - staleHours * HOUR))
              && (e == d || (d.status == Active && e.expireReason == Some(NotObserved)))
  {
    hide CountChanged, ExpireIfStale;
    var t := db.View();
    var deals: seq<Deal> := [];
    count := 0;
    CountNone<Deal>();
    for n := 0 to |t.deals|
      invariant db.View() == t && |deals| == n && count == CountChanged(t.deals[..n], deals)
      invariant forall i :: 0 <= i < n ==> deals[i] == ExpireIfStale(t, t.deals[i], now, staleHours)
    {
      var d := ExpireIfStale(t, t.deals[n], now, staleHours);
      CountOneMore(t.deals[..n], deals, t.deals[n], d);
      if d != t.deals[n] { count := count + 1; }
      deals := deals + [d];
      assert t.deals[..n + 1] == t.deals[..n] + [t.deals[n]];
    }
    assert t.deals[..|t.deals|] == t.deals;
    db.deals := deals;
    assert db.deals == ExpireStaleDeals(t, now, staleHours);
    forall i | 0 <= i < |deals| { StaleMeans(t, t.deals[i], now, staleHours); }
  }

  lemma StaleMeans(t: Tables, d: Deal, now: Time, staleHours: int)
    ensures var e := ExpireIfStale(t, d, now, staleHours);
            && (e.status == Active <==>
                d.status == Active && HasRecentOk(t.observations, d.offerId, now - staleHours * HOUR))
            && (e == d || (d.status == Active && e.expireReason == Some(NotObserved)))
  {
  }

  // ---------------------------------------------------------------- queue.py: the deadline sweep

  /** How many overdue tasks name a deal. */
  function CountOverdue(tasks: seq<Task>, retailerId: int, now: Time): nat {
    if tasks == [] then 0 else
      var n := |tasks| - 1;
      CountOverdue(tasks[..n], retailerId, now)
      + (if Overdue(tasks[n], retailerId, now) && tasks[n].dealId.Some? then 1 else 0)
  }

  /** UPDATE crawl_tasks ... RETURNING deal_id. */
  method ExpireOverdue(db: Database, retailerId: int, now: Time) returns (dealIds: seq<nat>)
    modifies db
    ensures db.View() == old(db.View()).(tasks := ExpireOverdueTasks(old(db.tasks), retailerId, now))
    ensures forall d: nat :: d in dealIds <==> DeadlineMissed(old(db.tasks), retailerId, now, d)
    ensures |dealIds| == CountOverdue(old(db.tasks), retailerId, now)
  {
    var tasks := db.tasks;
    dealIds := [];
    for n := 0 to |tasks|
      invariant |dealIds| == CountOverdue(tasks[..n], retailerId, now)
      invariant forall d: nat :: d in dealIds <==>
                  exists j :: 0 <= j < n && Overdue(tasks[j], retailerId, now) && tasks[j].dealId == Some(d)
    {
      assert tasks[..n + 1][..n] == tasks[..n];
      if Overdue(tasks[n], retailerId, now) && tasks[n].dealId.Some? {
        dealIds := dealIds + [tasks[n].dealId.value];
      }
    }
    assert tasks[..|tasks|] == tasks;
    db.tasks := ExpireOverdueTasks(tasks, retailerId, now);
  }

  /** One UPDATE a returned deal id. */
  method RefuseDeals(db: Database, dealIds: seq<nat>)
    requires forall d :: d in dealIds ==> d < |db.deals|
    modifies db
    ensures db.View() == old(db.View()).(deals := db.deals) && |db.deals| == |old(db.deals)|
    ensures forall d: nat :: d < |db.deals| ==>
              db.deals[d] == if d in dealIds then RefuseLate(old(db.deals)[d]) else old(db.deals)[d]
  {
    for i := 0 to |dealIds|
      invariant db.View() == old(db.View()).(deals := db.deals) && |db.deals| == |old(db.deals)|
      invariant forall d: nat :: d < |db.deals| ==>
                  db.deals[d] == if d in dealIds[..i] then RefuseLate(old(db.deals)[d]) else old(db.deals)[d]
    {
      var d := dealIds[i];
      assert d in dealIds;
      if db.deals[d].status == AsCandidate || db.deals[d].status == Confirming {
        db.deals := db.deals[d := db.deals[d].(status := Refused, rejectReason := Some(ConfirmDeadlineMissed))];
      }
      assert dealIds[..i + 1] == dealIds[..i] + [d];
    }
    assert dealIds[..|dealIds|] == dealIds;
  }

  method ExpireOverdueConfirmTasks(db: Database, retailerId: int, now: Time) returns (count: nat)
    requires forall j :: 0 <= j < |db.tasks| && db.tasks[j].dealId.Some? ==> db.tasks[j].dealId.value < |db.deals|
    modifies db
    ensures db.View() == Apply(old(db.View()), RefuseOverdue(retailerId, now))
    ensures count == CountOverdue(old(db.tasks), retailerId, now)
  {
    var dealIds := ExpireOverdue(db, retailerId, now);
    RefuseDeals(db, dealIds);
    count := |dealIds|;
    assert db.deals == RefuseOverdueDeals(old(db.View()), retailerId, now);
  }
}
