/** Whole grid pages: a page is a run of single steps, and what pages of many rows, mixed with
    any other writes, do to the deal of one unchanged row. */
module GridPages {
  import opened Core
  import opened Validate
  import opened Schema
  import opened DealRules
  import opened EnrollRules
  import opened Steps
  import opened Lifecycle
  import opened Runs
  import opened TaskQueue
  import opened GridIngest
  import opened GridSweeps
  import Replay

  // ---------------------------------------------------------------- pages are runs

  /** A page that does not abort is a run. */
  lemma {:induction false} GridIsRun(t: Tables, p: GridPage, rows: seq<GridItem>) returns (steps: seq<Step>)
    requires IngestGrid(t, p, rows).Some?
    ensures IngestGrid(t, p, rows) == Some(Run(t, steps))
    decreases rows
  {
    hide Ingest, IngestSucceeds;
    if rows == [] {
      steps := [];
    } else if !IsEligible(rows[0].item) {
      steps := GridIsRun(t, p, rows[1..]);
    } else {
      var f := SyntheticFetch(p, rows[0]);
      IngestIsRun(t, f);
      var rest := GridIsRun(Ingest(t, f), p, rows[1..]);
      RunConcat(t, IngestSteps(t, f), rest);
      steps := IngestSteps(t, f) + rest;
    }
  }

  function EnrollSteps(sweep: EnrollRules.Sweep, rows: seq<GridRow>): seq<Step> {
    if rows == [] then [] else [Enroll(sweep, rows[0])] + EnrollSteps(sweep, rows[1..])
  }

  /** What a row writes does not depend on the counters. */
  lemma CountersAside(t: Tables, out: EnrollOutcome, sweep: EnrollRules.Sweep, row: GridRow)
    ensures EnrollItem(t, out, sweep, row).0 == Apply(t, Enroll(sweep, row))
  {
  }

  /** An enrollment sweep is a run. */
  lemma {:induction false} EnrollIsRun(t: Tables, out: EnrollOutcome, sweep: EnrollRules.Sweep, rows: seq<GridRow>)
    ensures EnrollAll(t, out, sweep, rows).0 == Run(t, EnrollSteps(sweep, rows))
    decreases rows
  {
    hide Apply, EnrollItem;
    if rows != [] {
      CountersAside(t, out, sweep, rows[0]);
      var (t', out') := EnrollItem(t, out, sweep, rows[0]);
      EnrollIsRun(t', out', sweep, rows[1..]);
      var steps := EnrollSteps(sweep, rows);
      assert steps[0] == Enroll(sweep, rows[0]) && steps[1..] == EnrollSteps(sweep, rows[1..]);
    }
  }

  /** So the deals and the queue keep their invariants through a page and through an
      enrollment sweep. */
  lemma PagesKeep(t: Tables, p: GridPage, rows: seq<GridItem>, sweep: EnrollRules.Sweep, enrolled: seq<GridRow>)
    requires DealsOk(t) && TasksOk(t)
    ensures var u := IngestGrid(t, p, rows); u.Some? ==>
              DealsOk(u.value) && TasksOk(u.value) && Evolved(t.deals, u.value.deals)
    ensures var u := EnrollAll(t, EnrollOutcome(0, 0, 0, 0, 0), sweep, enrolled).0;
            DealsOk(u) && TasksOk(u) && Evolved(t.deals, u.deals)
  {
    if IngestGrid(t, p, rows).Some? {
      var steps := GridIsRun(t, p, rows);
      RunKeeps(t, steps);
      RunKeepsTasks(t, steps);
    }
    EnrollIsRun(t, EnrollOutcome(0, 0, 0, 0, 0), sweep, enrolled);
    RunKeeps(t, EnrollSteps(sweep, enrolled));
    RunKeepsTasks(t, EnrollSteps(sweep, enrolled));
  }

  // ---------------------------------------------------------------- the visits of one row

  /** A page that shows the row again, under a snapshot no earlier visit had. */
  predicate NewPage(visits: seq<Visit>, ref: string) {
    ref == "" || forall k :: 0 <= k < |visits| ==> visits[k].snapshotRef != ref
  }

  /** Some later visit is a new page at least ten minutes after the first. */
  ghost predicate SeenLate(visits: seq<Visit>) {
    exists j :: 0 < j < |visits| && visits[j].at - visits[0].at >= MIN_CONFIRM_DELAY
        && NewPage(visits[..j], visits[j].snapshotRef)
  }

  /** The snapshots recorded for offer o are those of the visits. */
  ghost predicate SeenRefs(t: Tables, o: nat, visits: seq<Visit>) {
    forall ref :: FindReplay(t.observations, o, ref).None? <==> NewPage(visits, ref)
  }

  lemma SeenLateGrows(visits: seq<Visit>, v: Visit)
    requires visits != []
    ensures SeenLate(visits + [v]) <==>
              SeenLate(visits) || (v.at - visits[0].at >= MIN_CONFIRM_DELAY && NewPage(visits, v.snapshotRef))
  {
    var more := visits + [v];
    assert forall j :: 0 <= j <= |visits| ==> more[..j] == visits[..j];
    assert visits[..|visits|] == visits && more[|visits|] == v;
    if SeenLate(visits) {
      var j :| 0 < j < |visits| && visits[j].at - visits[0].at >= MIN_CONFIRM_DELAY
          && NewPage(visits[..j], visits[j].snapshotRef);
      assert more[j] == visits[j] && more[0] == visits[0];
    }
    if SeenLate(more) {
      var j :| 0 < j < |more| && more[j].at - more[0].at >= MIN_CONFIRM_DELAY
          && NewPage(more[..j], more[j].snapshotRef);
      assert j < |visits| ==> more[j] == visits[j];
    }
  }

  // ---------------------------------------------------------------- the row's state

  /** Listing l, offer o and deal i are the row's after these visits. */
  ghost predicate RowAt(t: Tables, g: Row, visits: seq<Visit>, l: nat, o: nat, i: nat)
    requires visits != []
  {
    && Settled(t, g, l, o, i)
    && t.deals[i].detectedAt == visits[0].at
    && (t.deals[i].status == Active <==> SeenLate(visits))
    && SeenRefs(t, o, visits)
  }

  ghost predicate RowIs(t: Tables, g: Row, visits: seq<Visit>) {
    && DealsOk(t) && TasksOk(t)
    && if visits == [] then FindListing(t.listings, g.retailerId, Sku(g)).None?
       else exists l, o, i :: RowAt(t, g, visits, l, o, i)
  }

  /** The row's offer, once it is stored. */
  function RowOffer(t: Tables, g: Row): Option<nat> {
    var l := FindListing(t.listings, g.retailerId, Sku(g));
    if l.None? then None else FindOffer(t.offers, l.value, OfferOf(g).offerKey)
  }

  predicate OtherListing(f: Fetch, g: Row) {
    f.retailerId != g.retailerId || f.sku != Sku(g)
  }

  /** A step that is not about the row's listing and, for the staleness sweep, one within its
      window of the row's last observation. */
  predicate QuietStep(t: Tables, g: Row, step: Step) {
    match step
    case StoreListing(f) => OtherListing(f, g)
    case Observe(f, _) => OtherListing(f, g)
    case ExpireStale(now, hours) =>
      RowOffer(t, g).Some? ==> HasRecentOk(t.observations, RowOffer(t, g).value, now - hours * HOUR)
    case _ => true
  }

  lemma StillUnknown(t: Tables, g: Row, step: Step)
    requires QuietStep(t, g, step) && FindListing(t.listings, g.retailerId, Sku(g)).None?
    ensures FindListing(Apply(t, step).listings, g.retailerId, Sku(g)).None?
  {
    hide ObserveStep, EnrollItem, StoreListingAndTask;
    match step
    case Observe(f, offer) => Replay.ListingsStay(t, f, offer);
    case StoreListing(f) => if f.persistedUrl.Some? { OtherListingStored(t, g, f); }
    case Enroll(sweep, row) => EnrollingAside(t, sweep, row);
    case _ =>
  }

  lemma OtherListingStored(t: Tables, g: Row, f: Fetch)
    requires f.persistedUrl.Some? && OtherListing(f, g) && FindListing(t.listings, g.retailerId, Sku(g)).None?
    ensures FindListing(StoreListingAndTask(t, f).listings, g.retailerId, Sku(g)).None?
  {
    var u := StoreListingAndTask(t, f);
    assert forall j :: 0 <= j < |t.listings| ==>
             u.listings[j].retailerId == t.listings[j].retailerId && u.listings[j].sku == t.listings[j].sku;
  }

  /** Another listing's observation is of another offer. */
  lemma OtherObserved(t: Tables, g: Row, f: Fetch, offer: ParsedOffer, l: nat, o: nat)
    requires Known(t, g, l, o) && OtherListing(f, g)
    ensures var u := ObserveStep(t, f, offer);
            u.observations == t.observations
            || exists b: Observation :: b.offerId != o && u.observations == t.observations + [b]
  {
    hide DealStep;
    var m := FindListing(t.listings, f.retailerId, f.sku);
    if m.Some? && f.persistedUrl.Some? {
      var (t1, q) := WithOffer(t, f, offer, m.value);
      assert m.value != l && t1.offers[q].listingId == m.value && t1.offers[o].listingId == l;
      var v := VerdictOf(t, f, offer, q);
      assert ObservationRow(f, offer, q, v.quality).offerId != o;
    }
  }

  lemma SameRefs(observations: seq<Observation>, b: Observation, o: nat, ref: string)
    requires b.offerId != o
    ensures FindReplay(observations + [b], o, ref).None? <==> FindReplay(observations, o, ref).None?
  {
    var more := observations + [b];
    if FindReplay(observations, o, ref).Some? {
      var k := FindReplay(observations, o, ref).value;
      assert more[k] == observations[k];
    }
    if FindReplay(more, o, ref).Some? {
      var k := FindReplay(more, o, ref).value;
      assert more[k] == observations[k];
    }
  }

  lemma OneMoreRef(observations: seq<Observation>, b: Observation, o: nat, ref: string)
    requires b.offerId == o
    ensures FindReplay(observations + [b], o, ref).None? <==>
              FindReplay(observations, o, ref).None? && (ref == "" || b.snapshotRef != ref)
  {
    var more := observations + [b];
    assert more[|observations|] == b;
    if FindReplay(observations, o, ref).Some? {
      var k := FindReplay(observations, o, ref).value;
      assert more[k] == observations[k];
    }
    if FindReplay(more, o, ref).Some? {
      var k := FindReplay(more, o, ref).value;
      assert k < |observations| ==> more[k] == observations[k];
    }
  }

  lemma OtherRefs(t: Tables, g: Row, step: Step, l: nat, o: nat, visits: seq<Visit>)
    requires Known(t, g, l, o) && SeenRefs(t, o, visits) && QuietStep(t, g, step)
    ensures SeenRefs(Apply(t, step), o, visits)
  {
    hide ObserveStep, EnrollItem, StoreListingAndTask, Known, OtherListing, FindReplay;
    var u := Apply(t, step);
    match step
    case Observe(f, offer) =>
      OtherObserved(t, g, f, offer, l, o);
      if u.observations != t.observations {
        var b: Observation :| b.offerId != o && u.observations == t.observations + [b];
        forall ref ensures FindReplay(u.observations, o, ref).None? <==> NewPage(visits, ref) {
          SameRefs(t.observations, b, o, ref);
        }
      }
    case StoreListing(f) => if f.persistedUrl.Some? { StoringAside(t, f); }
    case Enroll(sweep, row) => EnrollingAside(t, sweep, row);
    case _ =>
  }

  lemma StoringAside(t: Tables, f: Fetch)
    requires f.persistedUrl.Some?
    ensures StoreListingAndTask(t, f).observations == t.observations
  {
  }

  lemma EnrollingAside(t: Tables, sweep: EnrollRules.Sweep, row: GridRow)
    ensures EnrollItem(t, EnrollOutcome(0, 0, 0, 0, 0), sweep, row).0.observations == t.observations
    ensures EnrollItem(t, EnrollOutcome(0, 0, 0, 0, 0), sweep, row).0.listings == t.listings
  {
  }

  // ---------------------------------------------------------------- one visit

  lemma SweepKeepsInvariants(t: Tables, g: Row, v: Visit)
    requires GoodRow(g) && DealsOk(t) && TasksOk(t)
    ensures DealsOk(Sweep1(t, g, v)) && TasksOk(Sweep1(t, g, v))
  {
    hide DealsOk, TasksOk, ObserveStep, StoreListingAndTask;
    var f := FetchOf(g, v);
    assert Apply(t, StoreListing(f)) == StoreListingAndTask(t, f);
    ApplyKeeps(t, StoreListing(f));
    ApplyKeepsTasks(t, StoreListing(f));
    var t1 := StoreListingAndTask(t, f);
    assert Apply(t1, Observe(f, OfferOf(g))) == ObserveStep(t1, f, OfferOf(g));
    ApplyKeeps(t1, Observe(f, OfferOf(g)));
    ApplyKeepsTasks(t1, Observe(f, OfferOf(g)));
  }

  lemma SweepRecords(t: Tables, g: Row, v: Visit, l: nat, o: nat)
    requires GoodRow(g) && GridSweeps.Ready(t, g, v, l, o)
    ensures Sweep1(t, g, v).observations == t.observations + [ObservationRow(FetchOf(g, v), OfferOf(g), o, Ok)]
  {
    hide Sweep1, DealStep;
    SweepShape(t, g, v, l, o);
  }

  /** The first visit opens the row's deal. */
  lemma FirstVisit(t: Tables, g: Row, v: Visit)
    requires GoodRow(g) && RowIs(t, g, [])
    ensures RowIs(Sweep1(t, g, v), g, [v])
  {
    hide Sweep1, DealsOk, TasksOk, Settled, SeenRefs;
    FreshIfUnknown(t, g);
    FirstSweep(t, g, v);
    SweepKeepsInvariants(t, g, v);
    FirstRefs(t, g, v);
    assert !SeenLate([v]);
    assert RowAt(Sweep1(t, g, v), g, [v], |t.listings|, |t.offers|, |t.deals|);
  }

  lemma FirstRefs(t: Tables, g: Row, v: Visit)
    requires GoodRow(g) && Fresh(t, g)
    ensures SeenRefs(Sweep1(t, g, v), |t.offers|, [v])
  {
    hide Sweep1, FindReplay, GridSweeps.Ready, GoodRow;
    GoodHasUrl(g);
    var o := |t.offers|;
    FreshIsReady(t, g, v);
    SweepRecords(t, g, v, |t.listings|, o);
    forall ref ensures FindReplay(Sweep1(t, g, v).observations, o, ref).None? <==> NewPage([v], ref) {
      NoneOfFresh(t, g, ref);
      OneMoreRef(t.observations, ObservationRow(FetchOf(g, v), OfferOf(g), o, Ok), o, ref);
      NewPageGrows([], v, ref);
      assert [] + [v] == [v];
    }
  }

  lemma FreshIsReady(t: Tables, g: Row, v: Visit)
    requires Fresh(t, g)
    ensures GridSweeps.Ready(t, g, v, |t.listings|, |t.offers|)
  {
  }

  lemma NoneOfFresh(t: Tables, g: Row, ref: string)
    requires Fresh(t, g)
    ensures FindReplay(t.observations, |t.offers|, ref).None?
  {
  }

  /** A later visit either repeats a page, comes too early, publishes or refreshes. */
  lemma NextVisit(t: Tables, g: Row, v: Visit, visits: seq<Visit>, l: nat, o: nat, i: nat)
    requires GoodRow(g) && visits != [] && RowAt(t, g, visits, l, o, i)
    ensures RowAt(Sweep1(t, g, v), g, visits + [v], l, o, i)
  {
    hide Sweep1, Settled, FindReplay;
    SeenLateGrows(visits, v);
    var more, u := visits + [v], Sweep1(t, g, v);
    SettledMeans(t, g, l, o, i);
    if FindReplay(t.observations, o, v.snapshotRef).Some? {
      ReplayedSweep(t, g, v, l, o, i);
      forall ref ensures FindReplay(u.observations, o, ref).None? <==> NewPage(more, ref) {
        assert FindReplay(t.observations, o, ref).None? <==> NewPage(visits, ref);
        NewPageGrows(visits, v, ref);
      }
    } else {
      if t.deals[i].status == Active {
        ActiveSweep(t, g, v, l, o, i);
      } else if v.at - t.deals[i].detectedAt < MIN_CONFIRM_DELAY {
        EarlySweep(t, g, v, l, o, i);
      } else {
        ConfirmingSweep(t, g, v, l, o, i);
      }
      SweepRecords(t, g, v, l, o);
      var b := ObservationRow(FetchOf(g, v), OfferOf(g), o, Ok);
      forall ref ensures FindReplay(u.observations, o, ref).None? <==> NewPage(more, ref) {
        OneMoreRef(t.observations, b, o, ref);
        NewPageGrows(visits, v, ref);
      }
    }
  }

  lemma NewPageGrows(visits: seq<Visit>, v: Visit, ref: string)
    ensures NewPage(visits + [v], ref) <==> NewPage(visits, ref) && (ref == "" || v.snapshotRef != ref)
  {
    var more := visits + [v];
    assert more[|visits|] == v;
    assert forall k :: 0 <= k < |visits| ==> more[k] == visits[k];
  }

  lemma SettledMeans(t: Tables, g: Row, l: nat, o: nat, i: nat)
    requires Settled(t, g, l, o, i)
    ensures i < |t.deals| && (t.deals[i].status == Confirming || t.deals[i].status == Active)
    ensures GridSweeps.Known(t, g, l, o) && RowOffer(t, g) == Some(o)
  {
  }

  // ---------------------------------------------------------------- moves

  datatype Move = Look(visit: Visit) | Other(step: Step)

  function ApplyMove(t: Tables, g: Row, move: Move): Tables
    requires g.grid.persistedUrl.Some?
  {
    match move
    case Look(v) => Sweep1(t, g, v)
    case Other(step) => Apply(t, step)
  }

  function RunMoves(t: Tables, g: Row, moves: seq<Move>): Tables
    requires g.grid.persistedUrl.Some?
    decreases moves
  {
    if moves == [] then t else RunMoves(ApplyMove(t, g, moves[0]), g, moves[1..])
  }

  predicate QuietMove(t: Tables, g: Row, move: Move) {
    move.Other? ==> QuietStep(t, g, move.step)
  }

  predicate QuietMoves(t: Tables, g: Row, moves: seq<Move>)
    requires g.grid.persistedUrl.Some?
    decreases moves
  {
    moves == [] || (QuietMove(t, g, moves[0]) && QuietMoves(ApplyMove(t, g, moves[0]), g, moves[1..]))
  }

  function Visits(moves: seq<Move>): seq<Visit> {
    if moves == [] then [] else (if moves[0].Look? then [moves[0].visit] else []) + Visits(moves[1..])
  }

  lemma OtherMoveKeeps(t: Tables, g: Row, step: Step, visits: seq<Visit>)
    requires RowIs(t, g, visits) && QuietStep(t, g, step)
    ensures RowIs(Apply(t, step), g, visits)
  {
    hide Apply, DealsOk, TasksOk, Settled, SeenRefs, QuietStep, GridSweeps.Known;
    ApplyKeeps(t, step);
    ApplyKeepsTasks(t, step);
    if visits == [] {
      StillUnknown(t, g, step);
    } else {
      var l, o, i :| RowAt(t, g, visits, l, o, i);
      SettledMeans(t, g, l, o, i);
      QuietIsQuiet(t, g, o, step);
      OtherKeeps(t, g, step, l, o, i);
      OtherRefs(t, g, step, l, o, visits);
      SettledMeans(Apply(t, step), g, l, o, i);
      assert RowAt(Apply(t, step), g, visits, l, o, i);
    }
  }

  lemma QuietIsQuiet(t: Tables, g: Row, o: nat, step: Step)
    requires QuietStep(t, g, step) && RowOffer(t, g) == Some(o)
    ensures Quiet(t, g, o, step)
  {
  }

  lemma LookKeeps(t: Tables, g: Row, v: Visit, visits: seq<Visit>)
    requires GoodRow(g) && RowIs(t, g, visits)
    ensures RowIs(Sweep1(t, g, v), g, visits + [v])
  {
    hide Sweep1, DealsOk, TasksOk, RowAt, GoodRow;
    if visits == [] {
      FirstVisit(t, g, v);
      assert visits + [v] == [v];
    } else {
      var l, o, i :| RowAt(t, g, visits, l, o, i);
      NextVisit(t, g, v, visits, l, o, i);
      SweepKeepsInvariants(t, g, v);
    }
  }

  lemma MoveKeeps(t: Tables, g: Row, move: Move, visits: seq<Visit>)
    requires GoodRow(g) && RowIs(t, g, visits) && QuietMove(t, g, move)
    ensures RowIs(ApplyMove(t, g, move), g, visits + Visits([move]))
  {
    hide Sweep1, Apply, RowIs, QuietStep;
    match move
    case Other(step) =>
      OtherMoveKeeps(t, g, step, visits);
      assert visits + Visits([move]) == visits;
    case Look(v) =>
      LookKeeps(t, g, v, visits);
      assert Visits([move]) == [v];
  }

  lemma {:induction false} MovesKeep(t: Tables, g: Row, moves: seq<Move>, visits: seq<Visit>)
    requires GoodRow(g) && RowIs(t, g, visits) && QuietMoves(t, g, moves)
    ensures RowIs(RunMoves(t, g, moves), g, visits + Visits(moves))
    decreases moves
  {
    hide RowIs, QuietMove, ApplyMove;
    if moves == [] {
      assert visits + [] == visits;
    } else {
      MoveKeeps(t, g, moves[0], visits);
      MovesKeep(ApplyMove(t, g, moves[0]), g, moves[1..], visits + Visits([moves[0]]));
      assert visits + Visits([moves[0]]) + Visits(moves[1..]) == visits + Visits(moves);
    }
  }

  // ---------------------------------------------------------------- a page as moves

  function VisitOf(p: GridPage): Visit {
    Visit(p.at, p.dayEt, p.snapshotRef, p.clock)
  }

  /** The page's row is the row itself, on a clearance page of its own kind. */
  predicate IsRow(g: Row, p: GridPage, row: GridItem) {
    row == g.grid && p == Page(g, VisitOf(p))
  }

  /** Every eligible row of the page is the row itself or of another listing. */
  predicate PageFits(g: Row, p: GridPage, rows: seq<GridItem>) {
    forall k :: 0 <= k < |rows| && IsEligible(rows[k].item) ==>
        IsRow(g, p, rows[k]) || OtherListing(SyntheticFetch(p, rows[k]), g)
  }

  /** One visit for each time the page shows the row. */
  function PageVisits(g: Row, p: GridPage, rows: seq<GridItem>): seq<Visit> {
    if rows == [] then [] else (if IsRow(g, p, rows[0]) then [VisitOf(p)] else []) + PageVisits(g, p, rows[1..])
  }

  function Others(steps: seq<Step>): seq<Move> {
    if steps == [] then [] else [Other(steps[0])] + Others(steps[1..])
  }

  /** Steps of one fetch of another listing. */
  predicate StepsOf(steps: seq<Step>, f: Fetch) {
    forall k :: 0 <= k < |steps| ==> (steps[k].StoreListing? || steps[k].Observe?) && steps[k].fetch == f
  }

  lemma {:induction false} OthersAreMoves(t: Tables, g: Row, steps: seq<Step>, f: Fetch)
    requires g.grid.persistedUrl.Some? && StepsOf(steps, f) && OtherListing(f, g)
    ensures RunMoves(t, g, Others(steps)) == Run(t, steps) && QuietMoves(t, g, Others(steps))
    ensures Visits(Others(steps)) == []
    decreases steps
  {
    hide Apply, OtherListing;
    if steps != [] {
      OthersAreMoves(Apply(t, steps[0]), g, steps[1..], f);
      var moves := Others(steps);
      assert moves[0] == Other(steps[0]) && moves[1..] == Others(steps[1..]);
    }
  }

  lemma {:induction false} VisitsConcat(a: seq<Move>, b: seq<Move>)
    ensures Visits(a + b) == Visits(a) + Visits(b)
  {
    if a == [] {
      assert a + b == b;
    } else {
      var all, head := a + b, if a[0].Look? then [a[0].visit] else [];
      assert all[0] == a[0] && all[1..] == a[1..] + b;
      VisitsConcat(a[1..], b);
      assert Visits(all) == head + (Visits(a[1..]) + Visits(b)) && Visits(a) == head + Visits(a[1..]);
    }
  }

  lemma {:induction false} MovesConcat(t: Tables, g: Row, a: seq<Move>, b: seq<Move>)
    requires g.grid.persistedUrl.Some?
    ensures RunMoves(t, g, a + b) == RunMoves(RunMoves(t, g, a), g, b)
    ensures QuietMoves(t, g, a + b) <==> QuietMoves(t, g, a) && QuietMoves(RunMoves(t, g, a), g, b)
    decreases a
  {
    hide ApplyMove, QuietMove;
    if a == [] {
      assert a + b == b;
    } else {
      var u, all := ApplyMove(t, g, a[0]), a + b;
      assert all[0] == a[0] && all[1..] == a[1..] + b;
      MovesConcat(u, g, a[1..], b);
      assert RunMoves(t, g, all) == RunMoves(u, g, all[1..]) && RunMoves(t, g, a) == RunMoves(u, g, a[1..]);
    }
  }

  lemma {:induction false} OfferStepsOf(f: Fetch, i: nat)
    requires i <= |f.offers|
    ensures StepsOf(OfferSteps(f, i), f)
    decreases |f.offers| - i
  {
    if i < |f.offers| { OfferStepsOf(f, i + 1); }
  }

  lemma IngestStepsOf(t: Tables, f: Fetch)
    ensures StepsOf(IngestSteps(t, f), f)
  {
    hide IngestSucceeds;
    OfferStepsOf(f, 0);
  }

  /** One eligible row: a visit, or quiet steps of its own listing. */
  lemma RowIsMoves(t: Tables, g: Row, p: GridPage, row: GridItem) returns (moves: seq<Move>)
    requires GoodRow(g) && (IsRow(g, p, row) || OtherListing(SyntheticFetch(p, row), g))
    ensures Ingest(t, SyntheticFetch(p, row)) == RunMoves(t, g, moves) && QuietMoves(t, g, moves)
    ensures Visits(moves) == if IsRow(g, p, row) then [VisitOf(p)] else []
  {
    hide Ingest, IngestSteps, StepsOf, GoodRow, OtherListing, SyntheticFetch;
    GoodHasUrl(g);
    var f := SyntheticFetch(p, row);
    if IsRow(g, p, row) {
      RowIsSweep(t, g, VisitOf(p));
      moves := [Look(VisitOf(p))];
      OneMove(t, g, moves[0]);
    } else {
      IngestStepsOf(t, f);
      IngestIsRun(t, f);
      moves := Others(IngestSteps(t, f));
      OthersAreMoves(t, g, IngestSteps(t, f), f);
    }
  }

  lemma RowIsSweep(t: Tables, g: Row, v: Visit)
    requires GoodRow(g)
    ensures IngestSucceeds(t, FetchOf(g, v)) && Ingest(t, FetchOf(g, v)) == Sweep1(t, g, v)
  {
    hide Ingest, IngestSucceeds, ObserveStep;
    SweepIsTwoSteps(t, g, v);
    assert [g.grid][1..] == [];
    assert IngestGrid(Ingest(t, FetchOf(g, v)), Page(g, v), []) == Some(Ingest(t, FetchOf(g, v)));
  }

  lemma OneMove(t: Tables, g: Row, move: Move)
    requires g.grid.persistedUrl.Some? && QuietMove(t, g, move)
    ensures RunMoves(t, g, [move]) == ApplyMove(t, g, move) && QuietMoves(t, g, [move])
    ensures Visits([move]) == if move.Look? then [move.visit] else []
  {
    hide ApplyMove, QuietMove;
    assert [move][1..] == [];
    assert RunMoves(ApplyMove(t, g, move), g, []) == ApplyMove(t, g, move);
  }

  /** A page that does not abort is a sequence of moves: a visit for each time it shows the
      row, and for every other row quiet steps of that row's own listing. */
  lemma {:induction false} PageIsMoves(t: Tables, g: Row, p: GridPage, rows: seq<GridItem>) returns (moves: seq<Move>)
    requires GoodRow(g) && PageFits(g, p, rows) && IngestGrid(t, p, rows).Some?
    ensures IngestGrid(t, p, rows) == Some(RunMoves(t, g, moves)) && QuietMoves(t, g, moves)
    ensures Visits(moves) == PageVisits(g, p, rows)
    decreases rows
  {
    hide Ingest, IngestSucceeds, IsRow, OtherListing, GoodRow;
    GoodHasUrl(g);
    if rows == [] {
      moves := [];
    } else if !IsEligible(rows[0].item) {
      moves := PageIsMoves(t, g, p, rows[1..]);
      assert !IsRow(g, p, rows[0]) by { IneligibleIsOther(g, p, rows[0]); }
    } else {
      var first := RowIsMoves(t, g, p, rows[0]);
      var rest := PageIsMoves(Ingest(t, SyntheticFetch(p, rows[0])), g, p, rows[1..]);
      MovesConcat(t, g, first, rest);
      VisitsConcat(first, rest);
      moves := first + rest;
    }
  }

  lemma GoodHasUrl(g: Row)
    requires GoodRow(g)
    ensures g.grid.persistedUrl.Some?
  {
  }

  lemma IneligibleIsOther(g: Row, p: GridPage, row: GridItem)
    requires GoodRow(g) && !IsEligible(row.item)
    ensures !IsRow(g, p, row)
  {
  }

  // ---------------------------------------------------------------- whole runs of pages

  /** A fetched page with all its rows, or any other write. */
  datatype Round = Shown(page: GridPage, rows: seq<GridItem>) | Write(step: Step)

  /** A page that aborts leaves nothing behind. */
  function ApplyRound(t: Tables, round: Round): Tables {
    match round
    case Shown(p, rows) => if IngestGrid(t, p, rows).Some? then IngestGrid(t, p, rows).value else t
    case Write(step) => Apply(t, step)
  }

  function RunRounds(t: Tables, rounds: seq<Round>): Tables
    decreases rounds
  {
    if rounds == [] then t else RunRounds(ApplyRound(t, rounds[0]), rounds[1..])
  }

  /** No round shows the listing other than as the row itself. */
  predicate QuietRounds(t: Tables, g: Row, rounds: seq<Round>)
    decreases rounds
  {
    rounds == [] ||
    (&& match rounds[0] {
          case Shown(p, rows) => PageFits(g, p, rows)
          case Write(step) => QuietStep(t, g, step)
        }
     && QuietRounds(ApplyRound(t, rounds[0]), g, rounds[1..]))
  }

  function RoundVisits(t: Tables, g: Row, round: Round): seq<Visit> {
    if round.Shown? && IngestGrid(t, round.page, round.rows).Some? then PageVisits(g, round.page, round.rows) else []
  }

  /** The visits of all pages that went through. */
  function AllVisits(t: Tables, g: Row, rounds: seq<Round>): seq<Visit>
    decreases rounds
  {
    if rounds == [] then [] else RoundVisits(t, g, rounds[0]) + AllVisits(ApplyRound(t, rounds[0]), g, rounds[1..])
  }

  lemma RoundKeeps(t: Tables, g: Row, round: Round, visits: seq<Visit>)
    requires GoodRow(g) && RowIs(t, g, visits)
    requires match round { case Shown(p, rows) => PageFits(g, p, rows) case Write(step) => QuietStep(t, g, step) }
    ensures RowIs(ApplyRound(t, round), g, visits + RoundVisits(t, g, round))
  {
    hide RowIs, Apply, PageFits, QuietStep;
    assert visits + [] == visits;
    match round
    case Write(step) => OtherMoveKeeps(t, g, step, visits);
    case Shown(p, rows) =>
      if IngestGrid(t, p, rows).Some? {
        var moves := PageIsMoves(t, g, p, rows);
        MovesKeep(t, g, moves, visits);
      }
  }

  lemma {:induction false} RoundsKeep(t: Tables, g: Row, rounds: seq<Round>, visits: seq<Visit>)
    requires GoodRow(g) && RowIs(t, g, visits) && QuietRounds(t, g, rounds)
    ensures RowIs(RunRounds(t, rounds), g, visits + AllVisits(t, g, rounds))
    decreases rounds
  {
    hide RowIs, ApplyRound, RoundVisits, PageFits, QuietStep;
    if rounds == [] {
      assert visits + [] == visits;
    } else {
      var here, u := RoundVisits(t, g, rounds[0]), ApplyRound(t, rounds[0]);
      RoundKeeps(t, g, rounds[0], visits);
      RoundsKeep(u, g, rounds[1..], visits + here);
      assert visits + here + AllVisits(u, g, rounds[1..]) == visits + (here + AllVisits(u, g, rounds[1..]));
    }
  }

  /** Two looks publish a grid deal, and it stays. From reachable tables that do not know the
      row, after any run of whole pages, mixed with any other writes that leave the row's
      listing alone: as long as no page that went through showed the row, its listing is
      unknown; from the first such page on the row has exactly one deal, detected then, at
      the same price, reference and percentage throughout; and that deal is ACTIVE exactly
      when some later new page showed the row at least ten minutes after the first, and
      otherwise still CONFIRMING. */
  lemma GridRowLifecycle(t: Tables, g: Row, rounds: seq<Round>) returns (l: nat, o: nat, i: nat)
    requires GoodRow(g) && DealsOk(t) && TasksOk(t) && FindListing(t.listings, g.retailerId, Sku(g)).None?
    requires QuietRounds(t, g, rounds)
    ensures var u := RunRounds(t, rounds); var visits := AllVisits(t, g, rounds);
            && DealsOk(u) && TasksOk(u)
            && (visits == [] ==> FindListing(u.listings, g.retailerId, Sku(g)).None?)
            && (visits != [] ==>
                  && Settled(u, g, l, o, i) && u.deals[i].detectedAt == visits[0].at
                  && u.deals[i].status == (if SeenLate(visits) then Active else Confirming))
  {
    hide QuietRounds, RunRounds, AllVisits, DealsOk, TasksOk;
    RoundsKeep(t, g, rounds, []);
    var u, visits := RunRounds(t, rounds), AllVisits(t, g, rounds);
    assert [] + visits == visits;
    l, o, i := 0, 0, 0;
    if visits != [] {
      l, o, i :| RowAt(u, g, visits, l, o, i);
    }
  }

  // ---------------------------------------------------------------- pages that do not abort

  /** A page whose eligible rows all claim more than nothing never aborts. */
  lemma {:induction false} PageGoesThrough(t: Tables, p: GridPage, rows: seq<GridItem>)
    requires forall k :: 0 <= k < |rows| && IsEligible(rows[k].item) ==> rows[k].item.claimed.value > 0
    ensures IngestGrid(t, p, rows).Some?
    decreases rows
  {
    hide Ingest, IngestSucceeds;
    if rows != [] && IsEligible(rows[0].item) {
      RowGoesThrough(t, p, rows[0]);
      PageGoesThrough(Ingest(t, SyntheticFetch(p, rows[0])), p, rows[1..]);
    } else if rows != [] {
      PageGoesThrough(t, p, rows[1..]);
    }
  }

  lemma RowGoesThrough(t: Tables, p: GridPage, row: GridItem)
    requires IsEligible(row.item) && row.item.claimed.value > 0
    ensures IngestSucceeds(t, SyntheticFetch(p, row))
  {
    hide DealStep, VerdictOf, SyntheticSku;
    var f := SyntheticFetch(p, row);
    if f.persistedUrl.Some? {
      var t1 := StoreListingAndTask(t, f);
      assert f.offers == [SyntheticOffer(row.item, p.page)] && RowAllowed(f.offers[0]);
      var l := FindListing(t1.listings, f.retailerId, f.sku);
      if l.Some? {
        assert !ObserveOffer(t1, f, f.offers[0], l.value).Violation?;
        var u := ObserveStep(t1, f, f.offers[0]);
        assert ObserveAll(u, f, 1) == Some(u);
      }
    }
  }
}
