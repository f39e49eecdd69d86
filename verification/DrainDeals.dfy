/** A drain's page queues the confirmation of every deal that it opens. */
module DrainDeals {
  import opened Core
  import Validate
  import opened Schema
  import opened DealRules
  import opened Steps
  import opened TaskQueue
  import opened LimiterRules
  import opened DrainRules

  /** Every deal that is new in u has a new queued CONFIRM task in u; old tasks are untouched. */
  ghost predicate NewQueued(t: Tables, u: Tables) {
    && |t.deals| <= |u.deals| && t.tasks <= u.tasks
    && forall d: nat :: |t.deals| <= d < |u.deals| ==> QueuedIn(u.tasks, |t.tasks|, d)
  }

  ghost predicate QueuedIn(tasks: seq<Task>, n: nat, d: nat) {
    exists j :: n <= j < |tasks| && tasks[j].status == Queued && tasks[j].dedupeKey == ConfirmKey(d)
  }

  lemma NewQueuedTwice(t: Tables, u: Tables, v: Tables)
    requires NewQueued(t, u) && NewQueued(u, v)
    ensures NewQueued(t, v)
  {
    forall d: nat | |t.deals| <= d < |v.deals| ensures QueuedIn(v.tasks, |t.tasks|, d) {
      if d < |u.deals| {
        assert QueuedIn(u.tasks, |t.tasks|, d);
        var j :| |t.tasks| <= j < |u.tasks| && u.tasks[j].status == Queued && u.tasks[j].dedupeKey == ConfirmKey(d);
        assert v.tasks[j] == u.tasks[j];
      } else {
        assert QueuedIn(v.tasks, |u.tasks|, d);
      }
    }
  }

  lemma NoTaskYet(t: Tables)
    requires TasksOk(t)
    ensures FindOpenTask(t.tasks, ConfirmKey(|t.deals|)).None?
  {
    forall j | 0 <= j < |t.tasks| ensures t.tasks[j].dedupeKey != ConfirmKey(|t.deals|) {
      assert TaskOk(t, t.tasks[j]);
    }
  }

  lemma DetectionQueues(t: Tables, f: Fetch, offer: ParsedOffer, o: nat, obs: nat)
    requires o < |t.offers| && t.offers[o].listingId < |t.listings| && offer.price.Some? && f.persistedUrl.Some?
    requires TasksOk(t) && !f.skipConfirmTask
    ensures var out := DetectOutcome(t, f, offer, o, obs); NewQueued(t, t.(deals := out.deals, tasks := out.tasks))
  {
    hide DetectedDeal, TasksOk;
    var out := DetectOutcome(t, f, offer, o, obs);
    NoTaskYet(t);
    if |out.deals| > |t.deals| {
      assert out.tasks[|t.tasks|].dedupeKey == ConfirmKey(|t.deals|);
      assert QueuedIn(out.tasks, |t.tasks|, |t.deals|);
    }
  }

  lemma SameCounts(t: Tables, f: Fetch, offer: ParsedOffer, obs: nat, v: Validate.Verdict, i: nat)
    requires offer.price.Some? && i < |t.deals|
    requires t.deals[i].offerId < |t.offers| && t.offers[t.deals[i].offerId].listingId < |t.listings|
    ensures |RecheckOutcome(t, f, offer, obs, i).deals| == |t.deals|
    ensures |ConfirmOutcome(t, f, offer, obs, v, i).deals| == |t.deals|
  {
  }

  lemma StepQueues(t: Tables, f: Fetch, offer: ParsedOffer, o: nat, obs: nat, v: Validate.Verdict)
    requires o < |t.offers| && t.offers[o].listingId < |t.listings| && f.persistedUrl.Some?
    requires TasksOk(t) && !f.skipConfirmTask
    ensures var out := DealStep(t, f, offer, o, obs, v); NewQueued(t, t.(deals := out.deals, tasks := out.tasks))
  {
    hide DetectOutcome, RecheckOutcome, ConfirmOutcome, TasksOk;
    if offer.price.Some? {
      var recheck := if v.quality == Validate.Ok then RecheckTarget(t.deals, o, RULES) else None;
      var pending := ConfirmTarget(t.deals, o, obs, f.at, RULES);
      if recheck.Some? {
        OtherOutcomesKeepTasks(t, f, offer, obs, v, recheck.value);
        SameCounts(t, f, offer, obs, v, recheck.value);
      } else if pending.Some? {
        OtherOutcomesKeepTasks(t, f, offer, obs, v, pending.value);
        SameCounts(t, f, offer, obs, v, pending.value);
      } else if v.quality == Validate.Ok {
        DetectionQueues(t, f, offer, o, obs);
      }
    }
  }

  lemma ObserveQueues(t: Tables, f: Fetch, offer: ParsedOffer, l: nat)
    requires FindListing(t.listings, f.retailerId, f.sku) == Some(l) && f.persistedUrl.Some?
    requires TasksOk(t) && !f.skipConfirmTask && !ObserveOffer(t, f, offer, l).Violation?
    ensures var u := ObserveOffer(t, f, offer, l).tables; NewQueued(t, u) && TasksOk(u) && u.listings == t.listings
  {
    hide DealStep, VerdictOf, TasksOk;
    ObserveKeepsTasks(t, f, offer);
    assert ObserveStep(t, f, offer) == ObserveOffer(t, f, offer, l).tables;
    var (t1, o) := WithOffer(t, f, offer, l);
    var v := VerdictOf(t, f, offer, o);
    var t2 := t1.(observations := t.observations + [ObservationRow(f, offer, o, v.quality)]);
    AsideOk(t, t2);
    StepQueues(t2, f, offer, o, |t.observations|, v);
  }

  lemma AsideOk(t: Tables, u: Tables)
    requires TasksOk(t) && DealsGrow(t, u) && u.tasks == t.tasks
    ensures TasksOk(u)
  {
    SameTasks(t, u);
  }

  lemma {:induction false} ObserveAllQueues(t: Tables, f: Fetch, i: nat)
    requires i <= |f.offers| && f.persistedUrl.Some? && FindListing(t.listings, f.retailerId, f.sku).Some?
    requires TasksOk(t) && !f.skipConfirmTask && ObserveAll(t, f, i).Some?
    ensures var u := ObserveAll(t, f, i).value; NewQueued(t, u) && TasksOk(u)
    decreases |f.offers| - i
  {
    hide ObserveOffer, TasksOk, NewQueued;
    if i == |f.offers| {
      Unchanged(t);
    } else {
      var l := FindListing(t.listings, f.retailerId, f.sku).value;
      var r := ObserveOffer(t, f, f.offers[i], l);
      ObserveQueues(t, f, f.offers[i], l);
      ObserveAllQueues(r.tables, f, i + 1);
      NewQueuedTwice(t, r.tables, ObserveAll(t, f, i).value);
    }
  }

  lemma Unchanged(t: Tables)
    ensures NewQueued(t, t)
  {
  }

  lemma IngestQueues(t: Tables, f: Fetch)
    requires TasksOk(t) && !f.skipConfirmTask && !f.ownsTask && IngestSucceeds(t, f)
    ensures NewQueued(t, Ingest(t, f)) && TasksOk(Ingest(t, f))
  {
    hide TasksOk, ObserveAll;
    if f.persistedUrl.Some? {
      var t1 := StoreListingAndTask(t, f);
      StoreListingKeepsTasks(t, f);
      assert FindListing(t1.listings, f.retailerId, f.sku).Some?;
      ObserveAllQueues(t1, f, 0);
    }
  }

  lemma {:induction false} ListingsQueue(t: Tables, fetches: seq<Fetch>, task: Task)
    requires TasksOk(t) && IngestListings(t, fetches, task).Some?
    ensures var u := IngestListings(t, fetches, task).value; NewQueued(t, u) && TasksOk(u)
    decreases fetches
  {
    hide TasksOk, Ingest, IngestSucceeds, NewQueued;
    if fetches == [] {
      Unchanged(t);
    } else {
      var f := ForTask(fetches[0], task);
      IngestQueues(t, f);
      ListingsQueue(Ingest(t, f), fetches[1..], task);
      NewQueuedTwice(t, Ingest(t, f), IngestListings(t, fetches, task).value);
    }
  }

  /** After any turn, every deal that the turn opened has a new queued CONFIRM task. */
  lemma TurnQueuesDeals(p: Policy, t: Tables, s: State, clock: Time, i: nat, w: World, d: nat)
    requires p.minSample >= 1 && i < |t.tasks| && t.tasks[i].status == Queued && TasksOk(t)
    requires |t.deals| <= d < |TakeTask(p, t, s, clock, i, w).tables.deals|
    ensures QueuedIn(TakeTask(p, t, s, clock, i, w).tables.tasks, |t.tasks|, d)
  {
    hide TasksOk, IngestListings, RecordOutcome, RecordRequest, CanAdmit;
    if w.answer.Listings? {
      var leased := Leasing(t, i);
      LeasingOk(t, i);
      if IngestListings(leased, w.answer.fetches, t.tasks[i]).Some? {
        ListingsQueue(leased, w.answer.fetches, t.tasks[i]);
        var u := IngestListings(leased, w.answer.fetches, t.tasks[i]).value;
        if d < |u.deals| {
          assert QueuedIn(u.tasks, |leased.tasks|, d);
          var j :| |t.tasks| <= j < |u.tasks| && u.tasks[j].status == Queued && u.tasks[j].dedupeKey == ConfirmKey(d);
          assert Finished(u, i, Done).tasks[j] == u.tasks[j];
        }
      }
    }
  }

  lemma LeasingOk(t: Tables, i: nat)
    requires TasksOk(t) && i < |t.tasks| && t.tasks[i].status == Queued
    ensures TasksOk(Leasing(t, i)) && |Leasing(t, i).tasks| == |t.tasks| && Leasing(t, i).deals == t.deals
  {
    TasksClosed(t, Leasing(t, i));
  }
}
