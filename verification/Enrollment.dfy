/** Exactly what one grid row tracks and queues, and what a whole sweep therefore queues. */
module Enrollment {
  import opened Core
  import opened Percent
  import opened Schema
  import opened EnrollRules

  // ---------------------------------------------------------------- the conditions

  /** A row whose prices the hits table accepts. */
  predicate Recordable(item: DiscoveredItem) {
    && (item.price.Some? ==> item.price.value > 0)
    && (item.claimed.Some? ==> item.claimed.value > 0)
    && (item.price.Some? && item.claimed.Some? ==> 20000 * item.price.value < 219999 * item.claimed.value)
  }

  /** 45.00 % off the claim, where 44.995 % rounds up. */
  predicate HalfOffNearly(item: DiscoveredItem) {
    && item.price.Some? && item.claimed.Some? && item.claimed.value > 0
    && 20000 * item.price.value <= 11001 * item.claimed.value
  }

  predicate Tracked(t: Tables, retailerId: int, url: string) {
    exists j :: 0 <= j < |t.tracked| && t.tracked[j].retailerId == retailerId && t.tracked[j].url == url
  }

  function CategoryOf(sweep: Sweep, item: DiscoveredItem): string {
    if item.categoryHint == "" then sweep.category else item.categoryHint
  }

  /** The row is enrolled: recorded, safe, below the cap, and its URL is tracked already or
      its category can be. */
  predicate Enrolled(t: Tables, sweep: Sweep, row: GridRow) {
    && Recordable(row.item) && row.urlSafe
    && (sweep.cap.Some? ==> EnabledCount(t.tracked, sweep.retailerId) < sweep.cap.value)
    && (Tracked(t, sweep.retailerId, row.item.productUrl)
        || CategoryOf(sweep, row.item)
             in {"rod", "reel", "line", "soft_bait", "hard_bait", "terminal", "combo", "other"})
  }

  /** It asks for a fetch: a new URL, or an old one at a deep discount, that the sweep did not
      observe itself. */
  predicate AsksFor(t: Tables, sweep: Sweep, row: GridRow) {
    && Enrolled(t, sweep, row) && row.item.productUrl !in sweep.skip
    && (!Tracked(t, sweep.retailerId, row.item.productUrl) || HalfOffNearly(row.item))
  }

  predicate HasOpen(tasks: seq<Task>, retailerId: int, url: string) {
    exists j :: 0 <= j < |tasks| && IsOpenTask(tasks[j]) && tasks[j].dedupeKey == EnrollKey(retailerId, url)
  }

  lemma RecordableExactly(item: DiscoveredItem)
    ensures HitAllowed(item) <==> Recordable(item)
  {
    if item.price.Some? && item.claimed.Some? && item.price.value > 0 && item.claimed.value > 0 {
      var p, r := item.price.value, item.claimed.value;
      AtLeast(10000 * (r - p), r, -99999);
      AtLeast(10000 * (r - p), r, 100000);
    }
  }

  lemma FastExactly(item: DiscoveredItem)
    ensures FastTrack(item) <==> HalfOffNearly(item)
  {
    if item.price.Some? && item.claimed.Some? && item.claimed.value > 0 {
      AtLeast(10000 * (item.claimed.value - item.price.value), item.claimed.value, 4500);
    }
  }

  // ---------------------------------------------------------------- one row

  function EnrollTaskFor(sweep: Sweep, item: DiscoveredItem): Task {
    Task(sweep.retailerId, EnrollTask, if HalfOffNearly(item) then 15 else 40, item.productUrl,
         CategoryOf(sweep, item), None, EnrollKey(sweep.retailerId, item.productUrl), sweep.seenAt, None, Queued)
  }

  /** A row queues its task if and only if it asks for one and none is open; then the URL has
      an open task. Anything else queues nothing. */
  lemma RowQueuesExactly(t: Tables, out: EnrollOutcome, sweep: Sweep, row: GridRow)
    ensures var tasks := EnrollItem(t, out, sweep, row).0.tasks; var url := row.item.productUrl;
            && tasks == (if AsksFor(t, sweep, row) && !HasOpen(t.tasks, sweep.retailerId, url)
                         then t.tasks + [EnrollTaskFor(sweep, row.item)] else t.tasks)
            && (AsksFor(t, sweep, row) ==> HasOpen(tasks, sweep.retailerId, url))
  {
    hide HitAllowed, FastTrack, Recordable, HalfOffNearly;
    RecordableExactly(row.item);
    FastExactly(row.item);
    var tasks := EnrollItem(t, out, sweep, row).0.tasks;
    if |tasks| > |t.tasks| { assert tasks[|t.tasks|].dedupeKey == EnrollKey(sweep.retailerId, row.item.productUrl); }
  }

  /** An enrolled row's URL is tracked afterwards, enabled and good for another 120 days unless
      it never expires; all other rows are as they were. A row that is not enrolled tracks
      nothing. */
  lemma RowTracksExactly(t: Tables, out: EnrollOutcome, sweep: Sweep, row: GridRow) returns (id: nat)
    ensures var u := EnrollItem(t, out, sweep, row).0; var url := row.item.productUrl;
            && (!Enrolled(t, sweep, row) ==> u.tracked == t.tracked)
            && (Enrolled(t, sweep, row) ==>
                  && id < |u.tracked| && u.tracked[id].retailerId == sweep.retailerId && u.tracked[id].url == url
                  && ((u.tracked[id].expiresAt == Some(sweep.seenAt + 120 * DAY) && u.tracked[id].enabled)
                      || (id < |t.tracked| && u.tracked[id] == t.tracked[id] && t.tracked[id].expiresAt.None?))
                  && |u.tracked| == |t.tracked| + (if Tracked(t, sweep.retailerId, url) then 0 else 1)
                  && forall j :: 0 <= j < |t.tracked| && j != id ==> u.tracked[j] == t.tracked[j])
  {
    hide HitAllowed, FastTrack, Recordable, HalfOffNearly;
    RecordableExactly(row.item);
    id := TrackUrl(t.tracked, sweep, row.item.productUrl).1;
  }

  /** A recorded row leaves one hit with its own numbers, linked to its tracked URL if it is
      enrolled. Only a row that raises leaves none: one that cannot be recorded, or one that
      is safe and below the cap but neither tracked nor of a known category. */
  lemma RowHitExactly(t: Tables, out: EnrollOutcome, sweep: Sweep, row: GridRow)
    ensures var u := EnrollItem(t, out, sweep, row).0; var item := row.item;
            var atCap := sweep.cap.Some? && EnabledCount(t.tracked, sweep.retailerId) >= sweep.cap.value;
            var kept := Recordable(item) && (!row.urlSafe || atCap || Enrolled(t, sweep, row));
            if !kept then u.hits == t.hits else
              && |u.hits| == |t.hits| + 1 && u.hits[..|t.hits|] == t.hits
              && var hit := u.hits[|t.hits|];
                 && hit.url == item.productUrl && hit.price == item.price && hit.claimed == item.claimed
                 && hit.seenAt == sweep.seenAt
                 && (hit.implied.Some? <==> item.price.Some? && item.claimed.Some?)
                 && (hit.implied.Some? ==> hit.implied.value == Pct(item.price.value, item.claimed.value))
                 && (hit.trackedId.Some? <==> Enrolled(t, sweep, row))
                 && (hit.trackedId.Some? ==>
                       && hit.trackedId.value < |u.tracked|
                       && u.tracked[hit.trackedId.value].url == item.productUrl)
  {
    hide FastTrack, HalfOffNearly, Pct, EnqueueEnrollTask;
    RecordableExactly(row.item);
  }

  /** The counter that the cap compares with: the enabled rows of the retailer. */
  lemma {:induction false} EnabledExactly(tracked: seq<TrackedUrl>, retailerId: int)
    ensures EnabledCount(tracked, retailerId)
         == |set j | 0 <= j < |tracked| && tracked[j].retailerId == retailerId && tracked[j].enabled|
  {
    var ids := set j | 0 <= j < |tracked| && tracked[j].retailerId == retailerId && tracked[j].enabled;
    if tracked != [] {
      var n := |tracked| - 1;
      var rest := tracked[..n];
      var fewer := set j | 0 <= j < |rest| && rest[j].retailerId == retailerId && rest[j].enabled;
      EnabledExactly(rest, retailerId);
      if tracked[n].retailerId == retailerId && tracked[n].enabled {
        assert ids == fewer + {n};
      } else {
        assert ids == fewer;
      }
    } else {
      assert ids == {};
    }
  }

  // ---------------------------------------------------------------- a whole sweep

  lemma {:induction false} SweepConcat(t: Tables, out: EnrollOutcome, sweep: Sweep, a: seq<GridRow>, b: seq<GridRow>)
    ensures var (t', out') := EnrollAll(t, out, sweep, a);
            EnrollAll(t, out, sweep, a + b) == EnrollAll(t', out', sweep, b)
    decreases a
  {
    hide EnrollItem;
    if a == [] {
      assert a + b == b;
    } else {
      assert (a + b)[1..] == a[1..] + b;
      var (t', out') := EnrollItem(t, out, sweep, a[0]);
      SweepConcat(t', out', sweep, a[1..], b);
    }
  }

  /** Every row that asks for a fetch when its turn comes has one: its URL has an open ENROLL
      task when the sweep ends. */
  lemma SweepQueues(t: Tables, out: EnrollOutcome, sweep: Sweep, rows: seq<GridRow>, k: nat)
    requires k < |rows| && AsksFor(EnrollAll(t, out, sweep, rows[..k]).0, sweep, rows[k])
    ensures HasOpen(EnrollAll(t, out, sweep, rows).0.tasks, sweep.retailerId, rows[k].item.productUrl)
  {
    hide AsksFor, EnrollItem, EnrollAll;
    var (t1, out1) := EnrollAll(t, out, sweep, rows[..k]);
    assert rows == rows[..k] + rows[k..];
    SweepConcat(t, out, sweep, rows[..k], rows[k..]);
    TurnThenRest(t1, out1, sweep, rows[k..]);
    var (t2, out2) := EnrollItem(t1, out1, sweep, rows[k]);
    RowQueuesExactly(t1, out1, sweep, rows[k]);
    SweepTasks(t2, out2, sweep, rows[k..][1..]);
    StillOpen(t2.tasks, EnrollAll(t, out, sweep, rows).0.tasks, sweep.retailerId, rows[k].item.productUrl);
  }

  lemma TurnThenRest(t: Tables, out: EnrollOutcome, sweep: Sweep, rows: seq<GridRow>)
    requires rows != []
    ensures var (t', out') := EnrollItem(t, out, sweep, rows[0]);
            EnrollAll(t, out, sweep, rows) == EnrollAll(t', out', sweep, rows[1..])
  {
  }

  lemma StillOpen(a: seq<Task>, b: seq<Task>, retailerId: int, url: string)
    requires a <= b && HasOpen(a, retailerId, url)
    ensures HasOpen(b, retailerId, url)
  {
    var j :| 0 <= j < |a| && IsOpenTask(a[j]) && a[j].dedupeKey == EnrollKey(retailerId, url);
    assert b[j] == a[j];
  }

  // ---------------------------------------------------------------- the expiry sweep

  /** A deal of an offer of the listing at that URL. */
  predicate DealAt(t: Tables, d: Deal, retailerId: int, url: string) {
    && d.offerId < |t.offers| && t.offers[d.offerId].listingId < |t.listings|
    && t.listings[t.offers[d.offerId].listingId].retailerId == retailerId
    && t.listings[t.offers[d.offerId].listingId].url == url
  }

  /** A row is disabled if and only if it is the retailer's, enabled, past its expiry, and no
      deal of its URL is open; nothing else of any row changes. */
  lemma DisabledExactly(t: Tables, retailerId: int, now: Time, i: nat)
    requires i < |t.tracked|
    ensures var u, v := t.tracked[i], DisableStaleUrls(t, retailerId, now)[i];
            var stale :=
              && u.retailerId == retailerId && u.enabled && u.expiresAt.Some? && u.expiresAt.value < now
              && forall k :: 0 <= k < |t.deals| && DealAt(t, t.deals[k], u.retailerId, u.url) ==>
                   t.deals[k].status == Refused || t.deals[k].status == Expired;
            v == if stale then u.(enabled := false) else u
  {
  }
}
