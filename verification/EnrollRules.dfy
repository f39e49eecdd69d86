/** Discovery enrollment (fpt/scheduler/enroller.py): what one grid row writes, and what a
    whole sweep keeps. */
module EnrollRules {
  import opened Core
  import opened Percent
  import opened Schema

  const DISCOVERY_TTL: Time := 120 * DAY
  const FAST_TRACK_MIN := 4500
  const FAST_TRACK_PRIORITY := 15
  const NORMAL_PRIORITY := 40
  const CATEGORIES: set<string> := {"rod", "reel", "line", "soft_bait", "hard_bait", "terminal", "combo", "other"}

  /** One sweep; `skip` holds the URLs already observed straight from the grid. */
  datatype Sweep = Sweep(retailerId: int, category: string, seenAt: Time, cap: Option<int>, skip: set<string>)

  /** A grid row and the answer of check_url_safety for its URL. */
  datatype GridRow = GridRow(item: DiscoveredItem, urlSafe: bool)

  /** hitsReported is len(discovery_hit_ids). */
  datatype EnrollOutcome = EnrollOutcome(hitsReported: nat, tasksEnqueued: nat, capped: nat, unsafe: nat, skipped: nat)

  function ImpliedDiscount(item: DiscoveredItem): Option<int> {
    if item.price.None? || item.claimed.None? || item.claimed.value <= 0 then None
    else Some(Pct(item.price.value, item.claimed.value))
  }

  /** The CHECKs of discovery_hits and the range of its numeric(5, 2). */
  predicate HitAllowed(item: DiscoveredItem) {
    && (item.price.Some? ==> item.price.value > 0)
    && (item.claimed.Some? ==> item.claimed.value > 0)
    && (ImpliedDiscount(item).Some? ==> -99999 <= ImpliedDiscount(item).value <= 99999)
  }

  function CategoryFor(sweep: Sweep, item: DiscoveredItem): string {
    if item.categoryHint != "" then item.categoryHint else sweep.category
  }

  function EnabledCount(tracked: seq<TrackedUrl>, retailerId: int): nat {
    if tracked == [] then 0 else
      var u := tracked[|tracked| - 1];
      EnabledCount(tracked[..|tracked| - 1], retailerId) + (if u.retailerId == retailerId && u.enabled then 1 else 0)
  }

  function FindTracked(tracked: seq<TrackedUrl>, retailerId: int, url: string): (r: Option<nat>)
    ensures r.Some? ==> r.value < |tracked| && tracked[r.value].retailerId == retailerId && tracked[r.value].url == url
    ensures r.None? ==> forall j :: 0 <= j < |tracked| ==>
              !(tracked[j].retailerId == retailerId && tracked[j].url == url)
  {
    FindIndex(tracked, (u: TrackedUrl) => u.retailerId == retailerId && u.url == url)
  }

  predicate AtCap(tracked: seq<TrackedUrl>, sweep: Sweep) {
    sweep.cap.Some? && EnabledCount(tracked, sweep.retailerId) >= sweep.cap.value
  }

  /** _get_or_create_tracked_url: (rows, id, was new). A re-sighting re-enables a row that
      has an expiry and leaves one that has none alone. */
  function TrackUrl(tracked: seq<TrackedUrl>, sweep: Sweep, url: string): (r: (seq<TrackedUrl>, nat, bool))
    ensures r.1 < |r.0| && r.0[r.1].retailerId == sweep.retailerId && r.0[r.1].url == url
    ensures r.0[r.1].expiresAt.Some? ==> r.0[r.1].enabled && r.0[r.1].expiresAt.value == sweep.seenAt + DISCOVERY_TTL
    ensures |r.0| == |tracked| + (if r.2 then 1 else 0) && forall j :: 0 <= j < |tracked| && j != r.1 ==>
              r.0[j] == tracked[j]
  {
    var i := FindTracked(tracked, sweep.retailerId, url);
    var until := Some(sweep.seenAt + DISCOVERY_TTL);
    if i.None? then (tracked + [TrackedUrl(sweep.retailerId, url, until, true)], |tracked|, true)
    else if tracked[i.value].expiresAt.Some? then
      (tracked[i.value := tracked[i.value].(expiresAt := until, enabled := true)], i.value, false)
    else (tracked, i.value, false)
  }

  /** _enqueue_enroll_task: at most one open ENROLL task per URL. */
  function EnqueueEnrollTask(tasks: seq<Task>, sweep: Sweep, url: string, category: string, priority: int): seq<Task> {
    var key := EnrollKey(sweep.retailerId, url);
    if FindOpenTask(tasks, key).Some? then tasks
    else tasks + [Task(sweep.retailerId, EnrollTask, priority, url, category, None, key, sweep.seenAt, None, Queued)]
  }

  predicate FastTrack(item: DiscoveredItem) {
    ImpliedDiscount(item).Some? && ImpliedDiscount(item).value >= FAST_TRACK_MIN
  }

  function NewHit(item: DiscoveredItem, sweep: Sweep, trackedId: Option<nat>): Hit {
    Hit(item.productUrl, item.price, item.claimed, ImpliedDiscount(item), trackedId, sweep.seenAt)
  }

  /** One turn of the loop in its own savepoint. A row that breaks a CHECK is rolled back
      and counted as skipped; if it breaks one after its hit was inserted, the hit is gone
      but stays reported. */
  function EnrollItem(t: Tables, out: EnrollOutcome, sweep: Sweep, row: GridRow): (Tables, EnrollOutcome) {
    var item := row.item;
    if !HitAllowed(item) then (t, out.(skipped := out.skipped + 1)) else
      var hit := t.(hits := t.hits + [NewHit(item, sweep, None)]);
      var reported := out.(hitsReported := out.hitsReported + 1);
      if !row.urlSafe then (hit, reported.(unsafe := out.unsafe + 1))
      else if AtCap(t.tracked, sweep) then (hit, reported.(capped := out.capped + 1))
      else if FindTracked(t.tracked, sweep.retailerId, item.productUrl).None?
          && CategoryFor(sweep, item) !in CATEGORIES then
        (t, reported.(skipped := out.skipped + 1))
      else
        var (tracked, id, wasNew) := TrackUrl(t.tracked, sweep, item.productUrl);
        var priority := if FastTrack(item) then FAST_TRACK_PRIORITY else NORMAL_PRIORITY;
        var tasks :=
          if (wasNew || FastTrack(item)) && item.productUrl !in sweep.skip
          then EnqueueEnrollTask(t.tasks, sweep, item.productUrl, CategoryFor(sweep, item), priority)
          else t.tasks;
        (t.(hits := t.hits + [NewHit(item, sweep, Some(id))], tracked := tracked, tasks := tasks),
         reported.(tasksEnqueued := out.tasksEnqueued + |tasks| - |t.tasks|))
  }

  function EnrollAll(t: Tables, out: EnrollOutcome, sweep: Sweep, rows: seq<GridRow>): (Tables, EnrollOutcome)
    decreases rows
  {
    if rows == [] then (t, out) else
      var (t', out') := EnrollItem(t, out, sweep, rows[0]);
      EnrollAll(t', out', sweep, rows[1..])
  }

  // ---------------------------------------------------------------- the cap

  lemma {:induction false} CountUpdate(tracked: seq<TrackedUrl>, retailerId: int, i: nat, u: TrackedUrl)
    requires i < |tracked|
    ensures EnabledCount(tracked[i := u], retailerId) ==
            EnabledCount(tracked, retailerId)
            + (if u.retailerId == retailerId && u.enabled then 1 else 0)
            - (if tracked[i].retailerId == retailerId && tracked[i].enabled then 1 else 0)
  {
    var n := |tracked| - 1;
    if i == n {
      assert tracked[i := u][..n] == tracked[..n];
    } else {
      assert tracked[i := u][..n] == tracked[..n][i := u];
      CountUpdate(tracked[..n], retailerId, i, u);
    }
  }

  /** One row raises a retailer's count of enabled URLs by at most one, and only from below the cap. */
  lemma ItemKeepsCap(t: Tables, out: EnrollOutcome, sweep: Sweep, row: GridRow, retailerId: int)
    ensures var t' := EnrollItem(t, out, sweep, row).0;
            var before, after := EnabledCount(t.tracked, retailerId), EnabledCount(t'.tracked, retailerId);
            before <= after <= before + 1
            && (after == before + 1 ==> retailerId == sweep.retailerId && !AtCap(t.tracked, sweep))
  {
    var (tracked, id, wasNew) := TrackUrl(t.tracked, sweep, row.item.productUrl);
    if wasNew {
      assert tracked[..|tracked| - 1] == t.tracked;
    } else if t.tracked[id].expiresAt.Some? {
      CountUpdate(t.tracked, retailerId, id, tracked[id]);
    }
  }

  /** The enabled URLs of a retailer never exceed its cap if they start within it, whatever
      the grid shows; re-enabling an expired row counts. */
  lemma {:induction false} SweepKeepsCap(t: Tables, out: EnrollOutcome, sweep: Sweep, rows: seq<GridRow>)
    requires sweep.cap.Some? && EnabledCount(t.tracked, sweep.retailerId) <= sweep.cap.value
    ensures EnabledCount(EnrollAll(t, out, sweep, rows).0.tracked, sweep.retailerId) <= sweep.cap.value
    decreases rows
  {
    if rows != [] {
      ItemKeepsCap(t, out, sweep, rows[0], sweep.retailerId);
      var (t', out') := EnrollItem(t, out, sweep, rows[0]);
      SweepKeepsCap(t', out', sweep, rows[1..]);
    }
  }

  // ---------------------------------------------------------------- accounting

  /** The hits recorded with a tracked URL. */
  function Attached(hits: seq<Hit>): nat {
    if hits == [] then 0 else Attached(hits[..|hits| - 1]) + (if hits[|hits| - 1].trackedId.Some? then 1 else 0)
  }

  /** A row that raises after its hit was inserted, at the new tracked_urls row. */
  predicate RaisesLate(t: Tables, sweep: Sweep, row: GridRow) {
    && HitAllowed(row.item) && row.urlSafe && !AtCap(t.tracked, sweep)
    && FindTracked(t.tracked, sweep.retailerId, row.item.productUrl).None?
    && CategoryFor(sweep, row.item) !in CATEGORIES
  }

  /** How many rows of the sweep raise late, as the sweep proceeds. */
  function LateRaises(t: Tables, out: EnrollOutcome, sweep: Sweep, rows: seq<GridRow>): nat
    decreases rows
  {
    if rows == [] then 0 else
      var (t', out') := EnrollItem(t, out, sweep, rows[0]);
      (if RaisesLate(t, sweep, rows[0]) then 1 else 0) + LateRaises(t', out', sweep, rows[1..])
  }

  /** Conservation over a sweep: every row ends as exactly one of skipped, unsafe, capped
      or tracked; every row that is not skipped has its hit; and the reported hits exceed
      the recorded ones by exactly the rows that raised after their hit was inserted. */
  lemma {:induction false} SweepAccounting(t: Tables, out: EnrollOutcome, sweep: Sweep, rows: seq<GridRow>)
    ensures var (t', out') := EnrollAll(t, out, sweep, rows);
            && |t.hits| <= |t'.hits| && t'.hits[..|t.hits|] == t.hits
            && |rows| == (out'.skipped - out.skipped) + (out'.unsafe - out.unsafe) + (out'.capped - out.capped)
                         + (Attached(t'.hits) - Attached(t.hits))
            && |t'.hits| - |t.hits| == |rows| - (out'.skipped - out.skipped)
            && out'.hitsReported - out.hitsReported == (|t'.hits| - |t.hits|) + LateRaises(t, out, sweep, rows)
            && LateRaises(t, out, sweep, rows) <= out'.skipped - out.skipped
            && out'.tasksEnqueued - out.tasksEnqueued == |t'.tasks| - |t.tasks|
    decreases rows
  {
    if rows != [] {
      var (t1, out1) := EnrollItem(t, out, sweep, rows[0]);
      ItemAccounting(t, out, sweep, rows[0]);
      SweepAccounting(t1, out1, sweep, rows[1..]);
    }
  }

  lemma ItemAccounting(t: Tables, out: EnrollOutcome, sweep: Sweep, row: GridRow)
    ensures var (t', out') := EnrollItem(t, out, sweep, row);
            && |t.hits| <= |t'.hits| && t'.hits[..|t.hits|] == t.hits
            && 1 == (out'.skipped - out.skipped) + (out'.unsafe - out.unsafe) + (out'.capped - out.capped)
                    + (Attached(t'.hits) - Attached(t.hits))
            && |t'.hits| - |t.hits| == 1 - (out'.skipped - out.skipped)
            && out'.hitsReported - out.hitsReported
               == (|t'.hits| - |t.hits|) + (if RaisesLate(t, sweep, row) then 1 else 0)
            && (RaisesLate(t, sweep, row) ==> out'.skipped == out.skipped + 1)
            && out.skipped <= out'.skipped
            && out'.tasksEnqueued - out.tasksEnqueued == |t'.tasks| - |t.tasks|
  {
    var t' := EnrollItem(t, out, sweep, row).0;
    if |t'.hits| > |t.hits| {
      assert t'.hits[..|t'.hits| - 1] == t.hits;
    }
  }

  /** With no raising row every row has its reported hit and is unsafe, capped or tracked. */
  lemma QuietSweep(t: Tables, out: EnrollOutcome, sweep: Sweep, rows: seq<GridRow>)
    requires EnrollAll(t, out, sweep, rows).1.skipped == out.skipped
    ensures var (t', out') := EnrollAll(t, out, sweep, rows);
            && out'.hitsReported - out.hitsReported == |rows| == |t'.hits| - |t.hits|
            && |rows| == (out'.unsafe - out.unsafe) + (out'.capped - out.capped)
                 + (Attached(t'.hits) - Attached(t.hits))
  {
    SweepAccounting(t, out, sweep, rows);
  }

  // ---------------------------------------------------------------- the queued tasks

  /** What a sweep adds to the queue: fresh ENROLL tasks of this retailer for URLs that are
      not in `skip`, each under a key that had no open task. */
  lemma {:induction false} SweepTasks(t: Tables, out: EnrollOutcome, sweep: Sweep, rows: seq<GridRow>)
    ensures var t' := EnrollAll(t, out, sweep, rows).0;
            && t.tasks <= t'.tasks
            && forall j :: |t.tasks| <= j < |t'.tasks| ==>
                 && t'.tasks[j].kind == EnrollTask && t'.tasks[j].status == Queued
                 && t'.tasks[j].retailerId == sweep.retailerId
                 && t'.tasks[j].url !in sweep.skip
                 && t'.tasks[j].dedupeKey == EnrollKey(sweep.retailerId, t'.tasks[j].url)
                 && t'.tasks[j].notBefore == sweep.seenAt
                 && forall i :: 0 <= i < j ==>
                      !(IsOpenTask(t'.tasks[i]) && t'.tasks[i].dedupeKey == t'.tasks[j].dedupeKey)
    decreases rows
  {
    if rows != [] {
      var (t1, out1) := EnrollItem(t, out, sweep, rows[0]);
      SweepTasks(t1, out1, sweep, rows[1..]);
    }
  }

  /** A row of the sweep with a safe URL that asks for this task, at the priority its implied
      discount earns. */
  ghost predicate AskedFor(sweep: Sweep, rows: seq<GridRow>, task: Task) {
    exists k :: 0 <= k < |rows| && rows[k].urlSafe && HitAllowed(rows[k].item)
             && task.url == rows[k].item.productUrl && task.category == CategoryFor(sweep, rows[k].item)
             && task.priority == (if FastTrack(rows[k].item) then FAST_TRACK_PRIORITY else NORMAL_PRIORITY)
  }

  /** Every task a sweep queues comes from one of its rows: an unsafe URL is never queued. */
  lemma {:induction false} SweepTaskOrigins(t: Tables, out: EnrollOutcome, sweep: Sweep, rows: seq<GridRow>)
    ensures var t' := EnrollAll(t, out, sweep, rows).0;
            forall j :: |t.tasks| <= j < |t'.tasks| ==> AskedFor(sweep, rows, t'.tasks[j])
    decreases rows
  {
    if rows != [] {
      var (t1, out1) := EnrollItem(t, out, sweep, rows[0]);
      var t' := EnrollAll(t, out, sweep, rows).0;
      SweepTasks(t1, out1, sweep, rows[1..]);
      SweepTaskOrigins(t1, out1, sweep, rows[1..]);
      forall j | |t.tasks| <= j < |t'.tasks| ensures AskedFor(sweep, rows, t'.tasks[j]) {
        if j < |t1.tasks| {
          assert t'.tasks[j] == t1.tasks[j] && rows[0].urlSafe;
        } else {
          AskedByLater(sweep, rows, t'.tasks[j]);
        }
      }
    }
  }

  lemma AskedByLater(sweep: Sweep, rows: seq<GridRow>, task: Task)
    requires rows != [] && AskedFor(sweep, rows[1..], task)
    ensures AskedFor(sweep, rows, task)
  {
    var k :| 0 <= k < |rows[1..]| && rows[1..][k].urlSafe && HitAllowed(rows[1..][k].item)
          && task.url == rows[1..][k].item.productUrl && task.category == CategoryFor(sweep, rows[1..][k].item)
          && task.priority == (if FastTrack(rows[1..][k].item) then FAST_TRACK_PRIORITY else NORMAL_PRIORITY);
    assert rows[k + 1] == rows[1..][k];
  }

  /** expire_stale_tracked_urls: past their expiry and without an open deal. */
  predicate HasOpenDealAt(t: Tables, u: TrackedUrl) {
    exists i :: 0 <= i < |t.deals| && IsOpen(t.deals[i])
             && t.deals[i].offerId < |t.offers| && t.offers[t.deals[i].offerId].listingId < |t.listings|
             && ListingOf(t, t.deals[i].offerId).retailerId == u.retailerId
             && ListingOf(t, t.deals[i].offerId).url == u.url
  }

  function DisableIfStale(t: Tables, u: TrackedUrl, retailerId: int, now: Time): TrackedUrl {
    if u.retailerId == retailerId && u.enabled && u.expiresAt.Some? && u.expiresAt.value < now && !HasOpenDealAt(t, u)
    then u.(enabled := false) else u
  }

  function DisableStaleUrls(t: Tables, retailerId: int, now: Time): seq<TrackedUrl> {
    seq(|t.tracked|, i requires 0 <= i < |t.tracked| => DisableIfStale(t, t.tracked[i], retailerId, now))
  }

  lemma {:induction false} FewerEnabled(a: seq<TrackedUrl>, b: seq<TrackedUrl>, retailerId: int)
    requires |a| == |b|
    requires forall i :: 0 <= i < |a| ==> a[i].retailerId == b[i].retailerId && (b[i].enabled ==> a[i].enabled)
    ensures EnabledCount(b, retailerId) <= EnabledCount(a, retailerId)
  {
    if a != [] { FewerEnabled(a[..|a| - 1], b[..|b| - 1], retailerId); }
  }
}
