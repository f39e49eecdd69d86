/** Deals that the confirmation deadline cannot reach: when expire_overdue_confirm_tasks
    rejects a candidate, and when nothing does. */
module Stranded {
  import opened Core
  import opened Validate
  import opened Schema
  import opened DealRules
  import opened EnrollRules
  import opened Steps
  import opened Lifecycle
  import opened TaskQueue
  import opened Replay

  /** A queued CONFIRM task of the retailer for the deal is past its deadline. */
  predicate QueuedAndLate(tasks: seq<Task>, retailerId: int, now: Time, d: nat) {
    exists j :: 0 <= j < |tasks| && tasks[j].dealId == Some(d) && tasks[j].status == Queued
             && tasks[j].retailerId == retailerId && tasks[j].deadline.Some? && tasks[j].deadline.value < now
  }

  /** The deadline rejects a pending deal if and only if a queued task for it is past its
      deadline; a deal without a queued task is never too late. */
  lemma DeadlineExactly(t: Tables, retailerId: int, now: Time, d: nat)
    requires TasksOk(t) && d < |t.deals| && t.deals[d].status == Confirming
    ensures var e := Apply(t, RefuseOverdue(retailerId, now)).deals[d];
            && (e.status == Refused <==> QueuedAndLate(t.tasks, retailerId, now, d))
            && (e.status == Refused ==> e.rejectReason == Some(Confirm.ConfirmDeadlineMissed))
            && (e.status != Refused ==> e == t.deals[d])
  {
    if QueuedAndLate(t.tasks, retailerId, now, d) {
      var j :| 0 <= j < |t.tasks| && t.tasks[j].dealId == Some(d) && t.tasks[j].status == Queued
            && t.tasks[j].retailerId == retailerId && t.tasks[j].deadline.Some? && t.tasks[j].deadline.value < now;
      assert TaskOk(t, t.tasks[j]);
      assert Overdue(t.tasks[j], retailerId, now);
    }
  }

  predicate NoneQueued(tasks: seq<Task>, d: nat) {
    forall j :: 0 <= j < |tasks| && tasks[j].status == Queued ==> tasks[j].dealId != Some(d)
  }

  /** Closing a deal's queued CONFIRM task strands the deal, in whatever way the task is
      closed: over budget, by robots.txt, after a failure, or DONE with a page that was
      blocked, empty or did not show the offer. */
  lemma ClosingStrands(t: Tables, i: nat, status: TaskStatus)
    requires TasksOk(t) && i < |t.tasks| && t.tasks[i].status == Queued && t.tasks[i].dealId.Some?
    requires status != Queued && status != Leased
    ensures var u := Apply(t, Finish(i, status)); u.deals == t.deals && NoneQueued(u.tasks, t.tasks[i].dealId.value)
  {
    var u, d := Apply(t, Finish(i, status)), t.tasks[i].dealId.value;
    assert TaskOk(t, t.tasks[i]);
    forall j | 0 <= j < |u.tasks| && u.tasks[j].status == Queued ensures u.tasks[j].dealId != Some(d) {
      assert TaskOk(t, t.tasks[j]);
      assert i < j || j < i;
    }
  }

  // ---------------------------------------------------------------- nothing reaches it

  /** The keys under which an offer is found again. */
  datatype OfferKeys = OfferKeys(retailerId: int, sku: string, offerKey: string)

  ghost predicate HasKeys(t: Tables, o: nat, keys: OfferKeys) {
    && o < |t.offers| && t.offers[o].offerKey == keys.offerKey && t.offers[o].listingId < |t.listings|
    && t.listings[t.offers[o].listingId].retailerId == keys.retailerId
    && t.listings[t.offers[o].listingId].sku == keys.sku
  }

  predicate Shows(step: Step, keys: OfferKeys) {
    step.Observe? && OfferKeys(step.fetch.retailerId, step.fetch.sku, step.offer.offerKey) == keys
  }

  /** A deal that is neither published nor queued for confirmation. */
  ghost predicate OutOfReach(t: Tables, d: nat, keys: OfferKeys) {
    && d < |t.deals| && t.deals[d].status != Active && HasKeys(t, t.deals[d].offerId, keys) && NoneQueued(t.tasks, d)
  }

  lemma OtherOffer(t: Tables, f: Fetch, offer: ParsedOffer, l: nat, o: nat, keys: OfferKeys)
    requires HasKeys(t, o, keys) && !Shows(Observe(f, offer), keys)
    requires FindListing(t.listings, f.retailerId, f.sku) == Some(l)
    ensures WithOffer(t, f, offer, l).1 != o
  {
  }

  lemma ObserveElsewhere(t: Tables, f: Fetch, offer: ParsedOffer, d: nat, keys: OfferKeys)
    requires OutOfReach(t, d, keys) && !Shows(Observe(f, offer), keys)
    ensures var u := ObserveStep(t, f, offer); d < |u.deals| && u.deals[d] == t.deals[d] && NoneQueued(u.tasks, d)
  {
    hide DealStep;
    var l := FindListing(t.listings, f.retailerId, f.sku);
    if l.Some? && f.persistedUrl.Some? {
      var (t1, o) := WithOffer(t, f, offer, l.value);
      OtherOffer(t, f, offer, l.value, t.deals[d].offerId, keys);
      var v := VerdictOf(t, f, offer, o);
      var t2 := t1.(observations := t.observations + [ObservationRow(f, offer, o, v.quality)]);
      StepElsewhere(t2, f, offer, o, |t.observations|, v, d);
    }
  }

  lemma StepElsewhere(t: Tables, f: Fetch, offer: ParsedOffer, o: nat, k: nat, v: Verdict, d: nat)
    requires o < |t.offers| && t.offers[o].listingId < |t.listings| && f.persistedUrl.Some?
    requires d < |t.deals| && t.deals[d].offerId != o && NoneQueued(t.tasks, d)
    ensures var out := DealStep(t, f, offer, o, k, v);
            d < |out.deals| && out.deals[d] == t.deals[d] && NoneQueued(out.tasks, d)
  {
    hide DealStep;
    var out := DealStep(t, f, offer, o, k, v);
    ActionMeaning(t, f, offer, o, k, v);
    QueuedForOwnDeal(t, f, offer, o, k, v);
    assert out.deals[d] == t.deals[d] by {
      if out.action.Some? && out.action.value.CandidateCreated? && |out.deals| != |t.deals| {
        assert out.deals[d] == out.deals[..|t.deals|][d];
      }
    }
  }

  lemma StaysOutOfReach(t: Tables, step: Step, d: nat, keys: OfferKeys)
    requires OutOfReach(t, d, keys) && !Shows(step, keys)
    ensures OutOfReach(Apply(t, step), d, keys) && Apply(t, step).deals[d] == t.deals[d]
  {
    hide ObserveStep, EnrollItem, StoreListingAndTask, KeysKept;
    var u := Apply(t, step);
    ApplyKeepsKeys(t, step);
    KeysStay(t, u, t.deals[d].offerId, keys);
    match step
    case Observe(f, offer) => ObserveElsewhere(t, f, offer, d, keys);
    case StoreListing(f) => if f.persistedUrl.Some? { ListingQueuesNone(t, f, d); }
    case Enroll(sweep, row) => EnrollQueuesNone(t, sweep, row, d);
    case RefuseOverdue(retailerId, now) => assert !DeadlineMissed(t.tasks, retailerId, now, d);
    case _ =>
  }

  lemma KeysStay(t: Tables, u: Tables, o: nat, keys: OfferKeys)
    requires KeysKept(t, u) && HasKeys(t, o, keys)
    ensures HasKeys(u, o, keys)
  {
  }

  lemma ListingQueuesNone(t: Tables, f: Fetch, d: nat)
    requires f.persistedUrl.Some? && NoneQueued(t.tasks, d)
    ensures var u := StoreListingAndTask(t, f); NoneQueued(u.tasks, d) && u.deals == t.deals
  {
  }

  lemma EnrollQueuesNone(t: Tables, sweep: Sweep, row: GridRow, d: nat)
    requires NoneQueued(t.tasks, d)
    ensures var u := EnrollItem(t, EnrollOutcome(0, 0, 0, 0, 0), sweep, row).0;
            NoneQueued(u.tasks, d) && u.deals == t.deals
  {
  }

  /** A stranded deal stays as it is through every run that does not show its offer again,
      whatever sweeps, drains and other ingests the run holds. */
  lemma {:induction false} StrandedStays(t: Tables, steps: seq<Step>, d: nat, keys: OfferKeys)
    requires OutOfReach(t, d, keys) && forall i :: 0 <= i < |steps| ==> !Shows(steps[i], keys)
    ensures d < |Run(t, steps).deals| && Run(t, steps).deals[d] == t.deals[d] && NoneQueued(Run(t, steps).tasks, d)
    decreases steps
  {
    hide Apply, OutOfReach;
    assert d < |t.deals| && NoneQueued(t.tasks, d) by { ReachMeans(t, d, keys); }
    if steps != [] {
      StaysOutOfReach(t, steps[0], d, keys);
      StrandedStays(Apply(t, steps[0]), steps[1..], d, keys);
    }
  }

  lemma ReachMeans(t: Tables, d: nat, keys: OfferKeys)
    requires OutOfReach(t, d, keys)
    ensures d < |t.deals| && NoneQueued(t.tasks, d)
  {
  }
}
