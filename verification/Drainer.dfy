/** drain_retailer_queue on the database and the limiter. */
module Drainer {
  import opened Core
  import opened Schema
  import opened DealRules
  import opened Steps
  import opened Database
  import opened LimiterRules
  import opened DrainRules
  import Limiter
  import DrainOrder
  import Stores
  import Pipeline

  /** UPDATE crawl_tasks SET status. */
  method SetStatus(db: Database, i: nat, status: TaskStatus)
    requires i < |db.tasks|
    modifies db
    ensures db.View() == old(db.View()).(tasks := old(db.tasks)[i := old(db.tasks)[i].(status := status)])
  {
    db.tasks := db.tasks[i := db.tasks[i].(status := status)];
  }

  method IngestPage(db: Database, fetches: seq<Fetch>, task: Task) returns (ok: bool)
    modifies db
    ensures IngestListings(old(db.View()), fetches, task) == if ok then Some(db.View()) else None
  {
    ghost var start := db.View();
    var n := 0;
    while n < |fetches|
      invariant n <= |fetches|
      invariant IngestListings(start, fetches, task) == IngestListings(db.View(), fetches[n..], task)
    {
      assert fetches[n..][0] == fetches[n] && fetches[n..][1..] == fetches[n + 1..];
      var done, _ := Pipeline.IngestParsedListing(db, ForTask(fetches[n], task));
      if !done { return false; }
      n := n + 1;
    }
    return true;
  }

  /** The fetch, its outcome and its page, for an admitted task. */
  method Fetching(db: Database, limiter: Limiter.RetailerLimiter, clock: Time, i: nat, answer: Answer)
    returns (taken: Option<TaskStatus>, stop: Option<Stop>)
    requires limiter.policy.minSample >= 1 && i < |db.tasks| && db.tasks[i].status == Queued
    modifies db, limiter
    ensures var turn := FetchTask(limiter.policy, old(db.View()), old(limiter.State()), clock, i, answer);
            && limiter.State() == turn.limiter && taken == turn.taken && stop == turn.stop
            && turn.pause == taken.Some?
            && (stop.None? ==> db.View() == turn.tables)
  {
    hide Trips, Trip, Push, RollBuckets, IngestSucceeds;
    ghost var t := db.View();
    var task := db.tasks[i];
    SetStatus(db, i, Leased);
    assert db.View() == Leasing(t, i);
    if answer.UnsafeUrl? {
      SetStatus(db, i, Failed);
      return Some(Failed), None;
    }
    limiter.RecordRequest(clock);
    if answer.TransportFailed? {
      SetStatus(db, i, Failed);
      return Some(Failed), None;
    }
    limiter.RecordOutcome(answer.NotOk? && answer.blocked, clock);
    match answer {
      case NotOk(_) =>
        SetStatus(db, i, Done);
        return Some(Done), None;
      case Unparsable =>
        SetStatus(db, i, Failed);
        return Some(Failed), None;
      case Listings(fetches) =>
        var ok := IngestPage(db, fetches, task);
        if !ok { return None, Some(IngestFailed); }
        assert i < |db.tasks| by { KeepsLength(Leasing(t, i), fetches, task); }
        SetStatus(db, i, Done);
        return Some(Done), None;
    }
  }

  lemma KeepsLength(t: Tables, fetches: seq<Fetch>, task: Task)
    ensures var r := IngestListings(t, fetches, task); r.Some? ==> |t.tasks| <= |r.value.tasks|
  {
    DrainOrder.ListingsOnlyQueue(t, fetches, task);
  }

  /** One selected task. */
  method Take(db: Database, limiter: Limiter.RetailerLimiter, clock: Time, i: nat, w: World)
    returns (taken: Option<TaskStatus>, pause: bool, stop: Option<Stop>)
    requires limiter.policy.minSample >= 1 && i < |db.tasks| && db.tasks[i].status == Queued
    modifies db, limiter
    ensures var turn := TakeTask(limiter.policy, old(db.View()), old(limiter.State()), clock, i, w);
            && limiter.State() == turn.limiter && taken == turn.taken && pause == turn.pause && stop == turn.stop
            && (stop != Some(IngestFailed) ==> db.View() == turn.tables)
  {
    var denial := limiter.CanAdmit(db.tasks[i].kind, clock);
    if denial == Some(HourlyCap) || denial == Some(DailyCap) {
      SetStatus(db, i, SkippedBudget);
      return Some(SkippedBudget), false, None;
    }
    if denial.Some? { return None, false, Some(Denied(denial.value)); }
    if !w.robotsAllow {
      SetStatus(db, i, SkippedRobots);
      return Some(SkippedRobots), false, None;
    }
    taken, stop := Fetching(db, limiter, clock, i, w.answer);
    pause := taken.Some?;
  }

  /** drain_retailer_queue, one answer of the outside a turn, max_tasks of them. */
  method DrainRetailerQueue(db: Database, limiter: Limiter.RetailerLimiter, retailerId: int, now: Time,
                            worlds: seq<World>)
    returns (tasks: seq<Taken>, raised: bool)
    requires limiter.policy.minSample >= 1
    requires forall j :: 0 <= j < |db.tasks| && db.tasks[j].dealId.Some? ==> db.tasks[j].dealId.value < |db.deals|
    modifies db, limiter
    ensures var u := DrainQueue(limiter.policy, retailerId, old(db.View()), old(limiter.State()), now, worlds);
            && db.View() == u.tables && limiter.State() == u.limiter && tasks == u.taken
            && (raised <==> u.stop == Some(IngestFailed))
  {
    hide TakeTask;
    var saved := db.View();
    var p := limiter.policy;
    ghost var s := StartDrain(saved, limiter.State(), retailerId, now);
    ghost var all := DrainFrom(p, retailerId, s, worlds);
    var _ := Stores.ExpireOverdueConfirmTasks(db, retailerId, now);
    var clock := now;
    tasks := [];
    var n := 0;
    while n < |worlds|
      invariant n <= |worlds| && s.stop.None?
      invariant db.View() == s.tables && limiter.State() == s.limiter && clock == s.clock && tasks == s.taken
      invariant all == DrainFrom(p, retailerId, s, worlds[n..])
    {
      var w := worlds[n];
      assert worlds[n..][0] == w && worlds[n..][1..] == worlds[n + 1..];
      var next := NextTask(db.tasks, retailerId, clock);
      if next.None? { break; }
      ghost var turn := TakeTask(p, s.tables, s.limiter, s.clock, next.value, w);
      s := AfterTurn(s, next.value, turn, w);
      var taken, pause, stop := Take(db, limiter, clock, next.value, w);
      if taken.Some? { tasks := tasks + [Taken(next.value, taken.value)]; }
      if pause { clock := clock + w.delay; }
      n := n + 1;
      if stop == Some(IngestFailed) {
        db.Rollback(saved);
        return tasks, true;
      }
      if stop.Some? { break; }
    }
    return tasks, false;
  }
}
