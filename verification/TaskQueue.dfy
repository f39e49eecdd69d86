/** The crawl_tasks side of the same runs: the partial unique index on open dedupe keys and
    the CONFIRM task of a deal. */
module TaskQueue {
  import opened Core
  import opened Validate
  import opened Schema
  import opened DealRules
  import opened EnrollRules
  import opened Steps
  import opened Lifecycle
  import opened Runs

  /** crawl_tasks_dedupe_open. */
  ghost predicate OneOpenTask(tasks: seq<Task>) {
    forall i, j :: 0 <= i < j < |tasks| && IsOpenTask(tasks[i]) && IsOpenTask(tasks[j]) ==>
        tasks[i].dedupeKey != tasks[j].dedupeKey
  }

  /** A stored observation of deal d's offer was made at `at`. */
  ghost predicate ObservedAt(t: Tables, d: nat, at: Time) {
    && d < |t.deals|
    && exists k :: 0 <= k < |t.observations| &&
                   t.observations[k].offerId == t.deals[d].offerId && t.observations[k].at == at
  }

  /** The deal's offer is listed by the retailer. */
  ghost predicate SoldBy(t: Tables, d: nat, retailerId: int) {
    && d < |t.deals| && t.deals[d].offerId < |t.offers| && t.offers[t.deals[d].offerId].listingId < |t.listings|
    && t.listings[t.offers[t.deals[d].offerId].listingId].retailerId == retailerId
  }

  /** A deal's CONFIRM task is queued by a stored fetch of its offer, for the offer's retailer:
      it is ready ten minutes after that fetch and due three hours after it. An open ENROLL or CONFIRM task carries
      the key of its URL or its deal. */
  ghost predicate TaskOk(t: Tables, task: Task) {
    && (task.dealId.Some? ==> task.dealId.value < |t.deals| && task.dedupeKey == ConfirmKey(task.dealId.value))
    && (task.dedupeKey.ConfirmKey? ==>
          && task.kind == ConfirmTask && task.dealId == Some(task.dedupeKey.dealId) && task.priority == 10
          && SoldBy(t, task.dedupeKey.dealId, task.retailerId)
          && ObservedAt(t, task.dedupeKey.dealId, task.notBefore - 10 * MINUTE)
          && task.deadline == Some(task.notBefore - 10 * MINUTE + 3 * HOUR))
    && (IsOpenTask(task) && task.kind == ConfirmTask ==> task.dedupeKey.ConfirmKey?)
    && (IsOpenTask(task) && task.kind == EnrollTask ==> task.dedupeKey == EnrollKey(task.retailerId, task.url))
  }

  ghost predicate TasksOk(t: Tables) {
    OneOpenTask(t.tasks) && forall i :: 0 <= i < |t.tasks| ==> TaskOk(t, t.tasks[i])
  }

  // ---------------------------------------------------------------- deals keep their offers

  /** Deals and observations are only added; a deal stays with its offer, an offer with its
      listing and a listing with its retailer. */
  ghost predicate DealsGrow(t: Tables, u: Tables) {
    && |t.deals| <= |u.deals| && t.observations <= u.observations
    && |t.offers| <= |u.offers| && |t.listings| <= |u.listings|
    && (forall i :: 0 <= i < |t.offers| ==> u.offers[i].listingId == t.offers[i].listingId)
    && (forall i :: 0 <= i < |t.listings| ==> u.listings[i].retailerId == t.listings[i].retailerId)
    && forall i :: 0 <= i < |t.deals| ==> u.deals[i].offerId == t.deals[i].offerId
  }

  lemma DealStepGrows(t: Tables, f: Fetch, offer: ParsedOffer, o: nat, k: nat, v: Verdict)
    requires o < |t.offers| && t.offers[o].listingId < |t.listings| && f.persistedUrl.Some?
    ensures var out := DealStep(t, f, offer, o, k, v); DealsGrow(t, t.(deals := out.deals, tasks := out.tasks))
  {
    hide DetectedDeal, BuildConfirmContext, FreshReference, RecheckTarget, ConfirmTarget;
  }

  lemma ObserveGrows(t: Tables, f: Fetch, offer: ParsedOffer)
    ensures DealsGrow(t, ObserveStep(t, f, offer))
  {
    hide DealStep;
    var l := FindListing(t.listings, f.retailerId, f.sku);
    if l.Some? && f.persistedUrl.Some? {
      var (t1, o) := WithOffer(t, f, offer, l.value);
      var v := VerdictOf(t, f, offer, o);
      var t2 := t1.(observations := t.observations + [ObservationRow(f, offer, o, v.quality)]);
      DealStepGrows(t2, f, offer, o, |t.observations|, v);
    }
  }

  lemma ApplyGrows(t: Tables, step: Step)
    ensures DealsGrow(t, Apply(t, step))
  {
    hide ObserveStep;
    if step.Observe? { ObserveGrows(t, step.fetch, step.offer); }
  }

  lemma StillOk(t: Tables, u: Tables, task: Task)
    requires TaskOk(t, task) && DealsGrow(t, u)
    ensures TaskOk(u, task)
  {
    if task.dedupeKey.ConfirmKey? {
      var d, at := task.dedupeKey.dealId, task.notBefore - 10 * MINUTE;
      var k :| 0 <= k < |t.observations| && t.observations[k].offerId == t.deals[d].offerId
          && t.observations[k].at == at;
      assert u.observations[k] == t.observations[k];
    }
  }

  // ---------------------------------------------------------------- steps

  /** One more task under a key that no open task has. */
  lemma QueueOneMore(t: Tables, u: Tables, task: Task)
    requires TasksOk(t) && DealsGrow(t, u) && u.tasks == t.tasks + [task]
    requires FindOpenTask(t.tasks, task.dedupeKey).None? && TaskOk(u, task)
    ensures TasksOk(u)
  {
    hide TaskOk, DealsGrow;
    forall i | 0 <= i < |u.tasks| ensures TaskOk(u, u.tasks[i]) {
      if i < |t.tasks| { StillOk(t, u, t.tasks[i]); }
    }
  }

  lemma SameTasks(t: Tables, u: Tables)
    requires TasksOk(t) && DealsGrow(t, u) && u.tasks == t.tasks
    ensures TasksOk(u)
  {
    hide TaskOk, DealsGrow;
    forall i | 0 <= i < |u.tasks| ensures TaskOk(u, u.tasks[i]) {
      StillOk(t, u, t.tasks[i]);
    }
  }

  /** Closing or leasing a task: no key, deal or time changes, and none is opened again. */
  lemma TasksClosed(t: Tables, u: Tables)
    requires TasksOk(t) && DealsGrow(t, u) && |u.tasks| == |t.tasks|
    requires forall i :: 0 <= i < |t.tasks| ==>
               u.tasks[i] == t.tasks[i].(status := u.tasks[i].status)
                   && (IsOpenTask(u.tasks[i]) ==> IsOpenTask(t.tasks[i]))
    ensures TasksOk(u)
  {
    forall i | 0 <= i < |u.tasks| ensures TaskOk(u, u.tasks[i]) {
      StillOk(t, u, t.tasks[i]);
    }
  }

  /** The observation that the deal step is about. */
  ghost predicate StoredAt(t: Tables, f: Fetch, o: nat, k: nat) {
    && k < |t.observations| && t.observations[k].offerId == o && t.observations[k].at == f.at
    && o < |t.offers| && t.offers[o].listingId < |t.listings|
    && t.listings[t.offers[o].listingId].retailerId == f.retailerId
  }

  lemma DetectTasks(t: Tables, f: Fetch, offer: ParsedOffer, o: nat, k: nat)
    requires o < |t.offers| && t.offers[o].listingId < |t.listings| && f.persistedUrl.Some? && offer.price.Some?
    requires TasksOk(t) && StoredAt(t, f, o, k)
    ensures var out := DetectOutcome(t, f, offer, o, k); TasksOk(t.(deals := out.deals, tasks := out.tasks))
  {
    hide TasksOk, DetectedDeal;
    DetectedShape(t, f, offer, o, k);
    var out := DetectOutcome(t, f, offer, o, k);
    var u := t.(deals := out.deals, tasks := out.tasks);
    if out.tasks == t.tasks {
      SameTasks(t, u);
    } else {
      var task := out.tasks[|t.tasks|];
      assert out.tasks == t.tasks + [task];
      assert u.deals[task.dedupeKey.dealId].offerId == o && u.observations[k].at == task.notBefore - MIN_CONFIRM_DELAY;
      QueueOneMore(t, u, task);
    }
  }

  lemma OtherOutcomesKeepTasks(t: Tables, f: Fetch, offer: ParsedOffer, k: nat, v: Verdict, i: nat)
    requires offer.price.Some? && i < |t.deals|
    requires t.deals[i].offerId < |t.offers| && t.offers[t.deals[i].offerId].listingId < |t.listings|
    ensures RecheckOutcome(t, f, offer, k, i).tasks == t.tasks && ConfirmOutcome(t, f, offer, k, v, i).tasks == t.tasks
  {
  }

  lemma DealStepTasks(t: Tables, f: Fetch, offer: ParsedOffer, o: nat, k: nat, v: Verdict)
    requires o < |t.offers| && t.offers[o].listingId < |t.listings| && f.persistedUrl.Some?
    requires TasksOk(t) && StoredAt(t, f, o, k)
    ensures var out := DealStep(t, f, offer, o, k, v); TasksOk(t.(deals := out.deals, tasks := out.tasks))
  {
    hide TasksOk, DealsGrow, DetectOutcome, RecheckOutcome, ConfirmOutcome;
    var u := t.(deals := DealStep(t, f, offer, o, k, v).deals, tasks := DealStep(t, f, offer, o, k, v).tasks);
    DealStepGrows(t, f, offer, o, k, v);
    if offer.price.None? {
      SameTasks(t, u);
    } else {
      var recheck := if v.quality == Ok then RecheckTarget(t.deals, o, RULES) else None;
      var pending := ConfirmTarget(t.deals, o, k, f.at, RULES);
      if recheck.Some? {
        OtherOutcomesKeepTasks(t, f, offer, k, v, recheck.value);
        SameTasks(t, u);
      } else if pending.Some? {
        OtherOutcomesKeepTasks(t, f, offer, k, v, pending.value);
        SameTasks(t, u);
      } else if v.quality == Ok {
        DetectTasks(t, f, offer, o, k);
      } else {
        SameTasks(t, u);
      }
    }
  }

  lemma ObserveKeepsTasks(t: Tables, f: Fetch, offer: ParsedOffer)
    requires TasksOk(t)
    ensures TasksOk(ObserveStep(t, f, offer))
  {
    hide DealStep, TasksOk;
    var l := FindListing(t.listings, f.retailerId, f.sku);
    if l.Some? && f.persistedUrl.Some? {
      var (t1, o) := WithOffer(t, f, offer, l.value);
      var v := VerdictOf(t, f, offer, o);
      var t2 := t1.(observations := t.observations + [ObservationRow(f, offer, o, v.quality)]);
      SameTasks(t, t1);
      SameTasks(t1, t2);
      DealStepTasks(t2, f, offer, o, |t.observations|, v);
    }
  }

  lemma StoreListingKeepsTasks(t: Tables, f: Fetch)
    requires TasksOk(t) && f.persistedUrl.Some?
    ensures TasksOk(StoreListingAndTask(t, f))
  {
    var u := StoreListingAndTask(t, f);
    if u.tasks == t.tasks {
      SameTasks(t, u);
    } else {
      assert u.tasks == t.tasks + [u.tasks[|t.tasks|]];
      QueueOneMore(t, u, u.tasks[|t.tasks|]);
    }
  }

  lemma EnrollKeepsTasks(t: Tables, sweep: Sweep, row: GridRow)
    requires TasksOk(t)
    ensures TasksOk(EnrollItem(t, EnrollOutcome(0, 0, 0, 0, 0), sweep, row).0)
  {
    hide TasksOk;
    var u := EnrollItem(t, EnrollOutcome(0, 0, 0, 0, 0), sweep, row).0;
    if u.tasks == t.tasks {
      SameTasks(t, u);
    } else {
      assert u.tasks == t.tasks + [u.tasks[|t.tasks|]];
      QueueOneMore(t, u, u.tasks[|t.tasks|]);
    }
  }

  /** Every step keeps at most one open task per dedupe key, and ties each deal's CONFIRM
      task to the fetch that queued it. */
  lemma ApplyKeepsTasks(t: Tables, step: Step)
    requires TasksOk(t)
    ensures TasksOk(Apply(t, step))
  {
    hide ObserveStep, StoreListingAndTask, EnrollItem, TasksOk;
    ApplyGrows(t, step);
    var u := Apply(t, step);
    match step
    case StoreListing(f) => if f.persistedUrl.Some? { StoreListingKeepsTasks(t, f); }
    case Observe(f, offer) => ObserveKeepsTasks(t, f, offer);
    case RefuseOverdue(_, _) => TasksClosed(t, u);
    case ExpireStale(_, _) => SameTasks(t, u);
    case Lease(_) => TasksClosed(t, u);
    case Finish(_, _) => TasksClosed(t, u);
    case Enroll(sweep, row) => EnrollKeepsTasks(t, sweep, row);
    case DisableStale(_, _) => SameTasks(t, u);
  }

  lemma {:induction false} RunKeepsTasks(t: Tables, steps: seq<Step>)
    requires TasksOk(t)
    ensures TasksOk(Run(t, steps))
    decreases steps
  {
    hide Apply;
    if steps != [] {
      ApplyKeepsTasks(t, steps[0]);
      RunKeepsTasks(Apply(t, steps[0]), steps[1..]);
    }
  }

  /** In every reachable state there is at most one open ENROLL task for a URL of a retailer
      and at most one open CONFIRM task for a deal, and no other two open tasks share a key. */
  lemma ReachableTasks(conflicts: set<(nat, int)>, steps: seq<Step>, i: nat, j: nat)
    requires i < |Run(Empty(conflicts), steps).tasks| && j < |Run(Empty(conflicts), steps).tasks|
    ensures var a, b := Run(Empty(conflicts), steps).tasks[i], Run(Empty(conflicts), steps).tasks[j];
            IsOpenTask(a) && IsOpenTask(b) ==>
              && (a.dedupeKey == b.dedupeKey ==> i == j)
              && (a.kind == EnrollTask && b.kind == EnrollTask && a.retailerId == b.retailerId && a.url == b.url ==>
                  i == j)
              && (a.kind == ConfirmTask && b.kind == ConfirmTask && a.dealId == b.dealId ==> i == j)
  {
    var t := Run(Empty(conflicts), steps);
    RunKeepsTasks(Empty(conflicts), steps);
    assert TaskOk(t, t.tasks[i]) && TaskOk(t, t.tasks[j]);
  }

  // ---------------------------------------------------------------- whose deal a new task names

  ghost predicate QueuedFor(tasks: seq<Task>, out: DealOutcome, o: nat) {
    && tasks <= out.tasks
    && forall j :: |tasks| <= j < |out.tasks| ==>
         out.tasks[j].dealId.Some? && out.tasks[j].dealId.value < |out.deals|
             && out.deals[out.tasks[j].dealId.value].offerId == o
  }

  lemma DetectionQueuesOwnDeal(t: Tables, f: Fetch, offer: ParsedOffer, o: nat, k: nat)
    requires o < |t.offers| && t.offers[o].listingId < |t.listings| && f.persistedUrl.Some? && offer.price.Some?
    ensures QueuedFor(t.tasks, DetectOutcome(t, f, offer, o, k), o)
  {
    hide DetectedDeal;
    var row := DetectedDeal(t, f, offer, o, k);
    if row.Some? {
      DetectedShape(t, f, offer, o, k);
      var (deals, i) := CreateCandidateDeal(t.deals, row.value);
      assert i < |deals| && deals[i].offerId == o;
    }
  }

  /** A task queued by the deal step names a deal of the observed offer. */
  lemma QueuedForOwnDeal(t: Tables, f: Fetch, offer: ParsedOffer, o: nat, k: nat, v: Verdict)
    requires o < |t.offers| && t.offers[o].listingId < |t.listings| && f.persistedUrl.Some?
    ensures QueuedFor(t.tasks, DealStep(t, f, offer, o, k, v), o)
  {
    hide RecheckOutcome, ConfirmOutcome, DetectOutcome;
    if offer.price.Some? {
      forall i: nat | i < |t.deals| && t.deals[i].offerId == o
        ensures RecheckOutcome(t, f, offer, k, i).tasks == t.tasks
        ensures ConfirmOutcome(t, f, offer, k, v, i).tasks == t.tasks
      {
        OtherOutcomesKeepTasks(t, f, offer, k, v, i);
      }
      DetectionQueuesOwnDeal(t, f, offer, o, k);
    }
  }

  // ---------------------------------------------------------------- the cap over runs

  /** Within a run whose sweeps all carry this retailer's cap. */
  predicate CapIs(steps: seq<Step>, retailerId: int, cap: int) {
    forall i :: 0 <= i < |steps| && steps[i].Enroll? && steps[i].sweep.retailerId == retailerId ==>
        steps[i].sweep.cap == Some(cap)
  }

  /** The enabled tracked URLs of a retailer stay within its cap through every run. */
  lemma {:induction false} RunKeepsCap(t: Tables, steps: seq<Step>, retailerId: int, cap: int)
    requires EnabledCount(t.tracked, retailerId) <= cap && CapIs(steps, retailerId, cap)
    ensures EnabledCount(Run(t, steps).tracked, retailerId) <= cap
    decreases steps
  {
    if steps != [] {
      var u := Apply(t, steps[0]);
      match steps[0] {
        case Enroll(sweep, row) => ItemKeepsCap(t, EnrollOutcome(0, 0, 0, 0, 0), sweep, row, retailerId);
        case DisableStale(r, now) => FewerEnabled(t.tracked, u.tracked, retailerId);
        case _ => assert u.tracked == t.tracked;
      }
      RunKeepsCap(u, steps[1..], retailerId, cap);
    }
  }
}
