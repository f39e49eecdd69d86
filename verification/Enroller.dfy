/** enroll_discovery_page of fpt/scheduler/enroller.py on the database. */
module Enroller {
  import opened Core
  import opened Schema
  import opened EnrollRules
  import opened Steps
  import opened Database

  /** _get_or_create_tracked_url. */
  method GetOrCreateTrackedUrl(db: Database, sweep: Sweep, url: string) returns (id: nat, wasNew: bool)
    modifies db
    ensures var (tracked, i, n) := TrackUrl(old(db.tracked), sweep, url);
            db.View() == old(db.View()).(tracked := tracked) && id == i && wasNew == n
  {
    var until := Some(sweep.seenAt + DISCOVERY_TTL);
    var found := FindTracked(db.tracked, sweep.retailerId, url);
    if found.Some? {
      var row := db.tracked[found.value];
      if row.expiresAt.Some? {
        db.tracked := db.tracked[found.value := row.(expiresAt := until, enabled := true)];
      }
      return found.value, false;
    }
    id, wasNew := |db.tracked|, true;
    db.tracked := db.tracked + [TrackedUrl(sweep.retailerId, url, until, true)];
  }

  /** _enqueue_enroll_task. */
  method EnqueueEnroll(db: Database, sweep: Sweep, url: string, category: string, priority: int) returns (queued: bool)
    modifies db
    ensures db.View() == old(db.View()).(tasks := EnqueueEnrollTask(old(db.tasks), sweep, url, category, priority))
    ensures |db.tasks| == |old(db.tasks)| + if queued then 1 else 0
  {
    var key := EnrollKey(sweep.retailerId, url);
    if FindOpenTask(db.tasks, key).Some? { return false; }
    db.tasks := db.tasks
        + [Task(sweep.retailerId, EnrollTask, priority, url, category, None, key, sweep.seenAt, None, Queued)];
    return true;
  }

  /** One row between its SAVEPOINT and its RELEASE or ROLLBACK TO. */
  method EnrollRow(db: Database, sweep: Sweep, row: GridRow, out: EnrollOutcome) returns (next: EnrollOutcome)
    modifies db
    ensures (db.View(), next) == EnrollItem(old(db.View()), out, sweep, row)
  {
    var savepoint := db.View();
    var item := row.item;
    next := out;
    if !HitAllowed(item) { return next.(skipped := next.skipped + 1); }
    var hitId := |db.hits|;
    db.hits := db.hits + [NewHit(item, sweep, None)];
    next := next.(hitsReported := next.hitsReported + 1);
    if !row.urlSafe { return next.(unsafe := next.unsafe + 1); }
    if sweep.cap.Some? && EnabledCount(db.tracked, sweep.retailerId) >= sweep.cap.value {
      return next.(capped := next.capped + 1);
    }
    var category := CategoryFor(sweep, item);
    if FindTracked(db.tracked, sweep.retailerId, item.productUrl).None? && category !in CATEGORIES {
      db.Rollback(savepoint);
      return next.(skipped := next.skipped + 1);
    }
    var id, wasNew := GetOrCreateTrackedUrl(db, sweep, item.productUrl);
    db.hits := db.hits[hitId := db.hits[hitId].(trackedId := Some(id))];
    assert db.hits == savepoint.hits + [NewHit(item, sweep, Some(id))];
    var fast := FastTrack(item);
    if (wasNew || fast) && item.productUrl !in sweep.skip {
      var priority := if fast then FAST_TRACK_PRIORITY else NORMAL_PRIORITY;
      var queued := EnqueueEnroll(db, sweep, item.productUrl, category, priority);
      if queued {
        next := next.(tasksEnqueued := next.tasksEnqueued + 1);
      }
    }
  }

  /** The whole sweep: its writes and counters are those of the rows in order; the cap
      holds afterwards if it held before; every row is accounted for; and no URL in
      `skip` was queued. */
  method EnrollDiscoveryPage(db: Database, sweep: Sweep, rows: seq<GridRow>) returns (out: EnrollOutcome)
    modifies db
    ensures (db.View(), out) == EnrollAll(old(db.View()), EnrollOutcome(0, 0, 0, 0, 0), sweep, rows)
    ensures sweep.cap.Some? && EnabledCount(old(db.tracked), sweep.retailerId) <= sweep.cap.value
            ==> EnabledCount(db.tracked, sweep.retailerId) <= sweep.cap.value
    ensures |rows| == out.skipped + out.unsafe + out.capped + (Attached(db.hits) - Attached(old(db.hits)))
    ensures out.skipped == 0 ==> out.hitsReported == |rows| == |db.hits| - |old(db.hits)|
    ensures old(db.tasks) <= db.tasks && out.tasksEnqueued == |db.tasks| - |old(db.tasks)|
    ensures forall j :: |old(db.tasks)| <= j < |db.tasks| ==> db.tasks[j].url !in sweep.skip
  {
    ghost var start, zero := db.View(), EnrollOutcome(0, 0, 0, 0, 0);
    out := EnrollOutcome(0, 0, 0, 0, 0);
    var n := 0;
    while n < |rows|
      invariant n <= |rows|
      invariant EnrollAll(start, zero, sweep, rows) == EnrollAll(db.View(), out, sweep, rows[n..])
    {
      assert rows[n..][0] == rows[n] && rows[n..][1..] == rows[n + 1..];
      out := EnrollRow(db, sweep, rows[n], out);
      n := n + 1;
    }
    SweepFacts(start, sweep, rows);
  }

  lemma SweepFacts(t: Tables, sweep: Sweep, rows: seq<GridRow>)
    ensures var zero := EnrollOutcome(0, 0, 0, 0, 0);
            var (u, out) := EnrollAll(t, zero, sweep, rows);
            && (sweep.cap.Some? && EnabledCount(t.tracked, sweep.retailerId) <= sweep.cap.value
                ==> EnabledCount(u.tracked, sweep.retailerId) <= sweep.cap.value)
            && |rows| == out.skipped + out.unsafe + out.capped + (Attached(u.hits) - Attached(t.hits))
            && (out.skipped == 0 ==> out.hitsReported == |rows| == |u.hits| - |t.hits|)
            && t.tasks <= u.tasks && out.tasksEnqueued == |u.tasks| - |t.tasks|
            && forall j :: |t.tasks| <= j < |u.tasks| ==> u.tasks[j].url !in sweep.skip
  {
    var zero := EnrollOutcome(0, 0, 0, 0, 0);
    if sweep.cap.Some? && EnabledCount(t.tracked, sweep.retailerId) <= sweep.cap.value {
      SweepKeepsCap(t, zero, sweep, rows);
    }
    SweepAccounting(t, zero, sweep, rows);
    SweepTasks(t, zero, sweep, rows);
  }

  /** expire_stale_tracked_urls. */
  method ExpireStaleTrackedUrls(db: Database, retailerId: int, now: Time) returns (count: nat)
    modifies db
    ensures db.View() == Apply(old(db.View()), DisableStale(retailerId, now))
    ensures EnabledCount(db.tracked, retailerId) == EnabledCount(old(db.tracked), retailerId) - count
    ensures |db.tracked| == |old(db.tracked)| && count == CountChanged(old(db.tracked), db.tracked)
  {
    hide CountChanged, DisableIfStale, EnabledCount;
    var t := db.View();
    var tracked: seq<TrackedUrl> := [];
    count := 0;
    CountNone<TrackedUrl>();
    NoneEnabled(retailerId);
    for n := 0 to |t.tracked|
      invariant db.View() == t && |tracked| == n && count == CountChanged(t.tracked[..n], tracked)
      invariant forall i :: 0 <= i < n ==> tracked[i] == DisableIfStale(t, t.tracked[i], retailerId, now)
      invariant EnabledCount(tracked, retailerId) == EnabledCount(t.tracked[..n], retailerId) - count
    {
      var u := DisableIfStale(t, t.tracked[n], retailerId, now);
      CountOneMore(t.tracked[..n], tracked, t.tracked[n], u);
      OneMoreEnabled(t, t.tracked[..n], tracked, t.tracked[n], retailerId, now);
      if u != t.tracked[n] { count := count + 1; }
      tracked := tracked + [u];
      assert t.tracked[..n + 1] == t.tracked[..n] + [t.tracked[n]];
    }
    assert t.tracked[..|t.tracked|] == t.tracked;
    db.tracked := tracked;
    assert db.tracked == DisableStaleUrls(t, retailerId, now);
  }

  lemma NoneEnabled(retailerId: int)
    ensures EnabledCount([], retailerId) == 0
  {
  }

  /** A disabled row is one enabled row of the retailer less. */
  lemma OneMoreEnabled(t: Tables, before: seq<TrackedUrl>, after: seq<TrackedUrl>, u: TrackedUrl, retailerId: int,
                       now: Time)
    ensures var e := DisableIfStale(t, u, retailerId, now);
            EnabledCount(before + [u], retailerId) - EnabledCount(after + [e], retailerId)
              == EnabledCount(before, retailerId) - EnabledCount(after, retailerId) + (if e != u then 1 else 0)
  {
    var e := DisableIfStale(t, u, retailerId, now);
    assert (before + [u])[..|before|] == before && (after + [e])[..|after|] == after;
  }
}
