/** What whole drains do to the queue and the tables: the order of work, the report, and a
    drain as one more run. */
module DrainOrder {
  import opened Core
  import Validate
  import opened Schema
  import opened DealRules
  import opened Steps
  import Lifecycle
  import Runs
  import TaskQueue
  import opened LimiterRules
  import opened DrainRules

  // ---------------------------------------------------------------- the queue's side

  /** Ingesting for a leased task only queues CONFIRM tasks. */
  ghost predicate OnlyQueues(a: seq<Task>, b: seq<Task>) {
    && |a| <= |b| && b[..|a|] == a
    && forall i :: |a| <= i < |b| ==> b[i].status == Queued && b[i].kind == ConfirmTask
  }

  lemma DealStepOnlyQueues(t: Tables, f: Fetch, offer: ParsedOffer, o: nat, obs: nat, v: Validate.Verdict)
    requires o < |t.offers| && t.offers[o].listingId < |t.listings| && f.persistedUrl.Some?
    ensures OnlyQueues(t.tasks, DealStep(t, f, offer, o, obs, v).tasks)
  {
    hide DetectedDeal, BuildConfirmContext, RecheckDeal, RecheckTarget, ConfirmTarget, CreateCandidateDeal;
  }

  lemma ObserveOnlyQueues(t: Tables, f: Fetch, offer: ParsedOffer, listingId: nat)
    requires listingId < |t.listings| && f.persistedUrl.Some?
    ensures var r := ObserveOffer(t, f, offer, listingId); !r.Violation? ==> OnlyQueues(t.tasks, r.tables.tasks)
  {
    var (t1, o) := WithOffer(t, f, offer, listingId);
    var v := VerdictOf(t, f, offer, o);
    var t2 := t1.(observations := t.observations + [ObservationRow(f, offer, o, v.quality)]);
    DealStepOnlyQueues(t2, f, offer, o, |t.observations|, v);
    assert OnlyQueues(t.tasks, t1.tasks);
  }

  lemma OnlyQueuesNothing(a: seq<Task>)
    ensures OnlyQueues(a, a)
  {
  }

  lemma OnlyQueuesTwice(a: seq<Task>, b: seq<Task>, c: seq<Task>)
    requires OnlyQueues(a, b) && OnlyQueues(b, c)
    ensures OnlyQueues(a, c)
  {
    assert c[..|a|] == c[..|b|][..|a|];
    assert forall i :: |a| <= i < |b| ==> c[i] == c[..|b|][i];
  }

  lemma {:induction false} ObserveAllOnlyQueues(t: Tables, f: Fetch, i: nat)
    requires i <= |f.offers|
    ensures var r := ObserveAll(t, f, i); r.Some? ==> OnlyQueues(t.tasks, r.value.tasks)
    decreases |f.offers| - i
  {
    hide ObserveOffer, OnlyQueues;
    OnlyQueuesNothing(t.tasks);
    var l := FindListing(t.listings, f.retailerId, f.sku);
    if i < |f.offers| && l.Some? && f.persistedUrl.Some? {
      ObserveOnlyQueues(t, f, f.offers[i], l.value);
      var r := ObserveOffer(t, f, f.offers[i], l.value);
      if !r.Violation? {
        ObserveAllOnlyQueues(r.tables, f, i + 1);
        var done := ObserveAll(r.tables, f, i + 1);
        if done.Some? { OnlyQueuesTwice(t.tasks, r.tables.tasks, done.value.tasks); }
      }
    }
  }

  lemma IngestOnlyQueues(t: Tables, f: Fetch)
    requires !f.ownsTask
    ensures OnlyQueues(t.tasks, Ingest(t, f).tasks)
  {
    if f.persistedUrl.Some? { ObserveAllOnlyQueues(StoreListingAndTask(t, f), f, 0); }
  }

  lemma {:induction false} ListingsOnlyQueue(t: Tables, fetches: seq<Fetch>, task: Task)
    ensures var r := IngestListings(t, fetches, task); r.Some? ==> OnlyQueues(t.tasks, r.value.tasks)
    decreases fetches
  {
    if fetches != [] {
      var f := ForTask(fetches[0], task);
      IngestOnlyQueues(t, f);
      ListingsOnlyQueue(Ingest(t, f), fetches[1..], task);
      var r := IngestListings(t, fetches, task);
      if r.Some? { OnlyQueuesTwice(t.tasks, Ingest(t, f).tasks, r.value.tasks); }
    }
  }

  predicate Closed(status: TaskStatus) {
    status == Done || status == Failed || status == SkippedRobots || status == SkippedBudget
  }

  /** What a turn does to the queue: the taken task gets its reported, final status; no other
      task changes; new ones are queued. */
  ghost predicate TurnedQueue(a: seq<Task>, b: seq<Task>, i: nat, taken: Option<TaskStatus>) {
    && |a| <= |b|
    && (forall j :: 0 <= j < |a| && (j != i || taken.None?) ==> b[j] == a[j])
    && (taken.Some? ==> i < |a| && b[i] == a[i].(status := taken.value) && Closed(taken.value))
    && forall j :: |a| <= j < |b| ==> b[j].status == Queued && b[j].kind == ConfirmTask
  }

  lemma FetchQueue(p: Policy, t: Tables, s: State, clock: Time, i: nat, answer: Answer)
    requires PolicyOk(p) && i < |t.tasks| && t.tasks[i].status == Queued
    ensures var turn := FetchTask(p, t, s, clock, i, answer); TurnedQueue(t.tasks, turn.tables.tasks, i, turn.taken)
  {
    hide IngestListings, RecordOutcome, RecordRequest;
    if answer.Listings? {
      ListingsOnlyQueue(Leasing(t, i), answer.fetches, t.tasks[i]);
      var done := IngestListings(Leasing(t, i), answer.fetches, t.tasks[i]);
      if done.Some? {
        var leased := Leasing(t, i).tasks;
        assert forall j :: 0 <= j < |leased| ==> done.value.tasks[j] == done.value.tasks[..|leased|][j];
      }
    }
  }

  lemma TakeQueue(p: Policy, t: Tables, s: State, clock: Time, i: nat, w: World)
    requires PolicyOk(p) && i < |t.tasks| && t.tasks[i].status == Queued
    ensures var turn := TakeTask(p, t, s, clock, i, w);
            && TurnedQueue(t.tasks, turn.tables.tasks, i, turn.taken)
            && (turn.taken.Some? <==> turn.stop.None?) && turn.stop != Some(QueueEmpty)
  {
    hide IngestListings, RecordOutcome;
    FetchQueue(p, t, CanAdmit(p, s, t.tasks[i].kind, clock).0, clock, i, w.answer);
  }

  ghost predicate Reported(taken: seq<Taken>, i: nat) {
    exists k :: 0 <= k < |taken| && taken[k].id == i
  }

  /** The queue beside the report: every reported task is closed with the reported status,
      none is reported twice, and every other one is as it was or newly queued. */
  ghost predicate QueueOk(start: seq<Task>, tasks: seq<Task>, taken: seq<Taken>) {
    && |start| <= |tasks|
    && (forall k :: 0 <= k < |taken| ==>
          taken[k].id < |tasks| && tasks[taken[k].id].status == taken[k].status && Closed(taken[k].status))
    && (forall k, l :: 0 <= k < l < |taken| ==> taken[k].id != taken[l].id)
    && (forall i :: 0 <= i < |tasks| && !Reported(taken, i) ==>
          if i < |start| then tasks[i] == start[i] else tasks[i].status == Queued && tasks[i].kind == ConfirmTask)
  }

  lemma TurnKeepsQueue(start: seq<Task>, a: seq<Task>, b: seq<Task>, taken: seq<Taken>, i: nat,
                       status: Option<TaskStatus>)
    requires QueueOk(start, a, taken) && TurnedQueue(a, b, i, status) && i < |a| && a[i].status == Queued
    ensures QueueOk(start, b, if status.Some? then taken + [Taken(i, status.value)] else taken)
  {
    if status.Some? {
      var more := taken + [Taken(i, status.value)];
      assert more[|taken|].id == i;
      forall j | Reported(taken, j) ensures Reported(more, j) {
        var k :| 0 <= k < |taken| && taken[k].id == j;
        assert more[k].id == j;
      }
    }
  }

  /** A queued task of the retailer whose time has come, of a kind that the drain fetches:
      anything but DISCOVERY and CANARY. */
  predicate Due(task: Task, retailerId: int, at: Time) {
    && task.retailerId == retailerId && task.status == Queued && at >= task.notBefore
    && task.kind != DiscoveryTask && task.kind != CanaryTask
  }

  /** Of lower priority number or, at the same one, ready earlier. */
  predicate Precedes(a: Task, b: Task) {
    a.priority < b.priority || (a.priority == b.priority && a.notBefore < b.notBefore)
  }

  /** Each selection was due, and nothing due in that queue precedes it. */
  ghost predicate PickOk(retailerId: int, pick: Pick) {
    && pick.id < |pick.queue| && Due(pick.queue[pick.id], retailerId, pick.at)
    && forall j :: 0 <= j < |pick.queue| && Due(pick.queue[j], retailerId, pick.at) ==>
         !Precedes(pick.queue[j], pick.queue[pick.id])
  }

  lemma NextIsPickOk(tasks: seq<Task>, retailerId: int, at: Time)
    ensures var i := NextTask(tasks, retailerId, at);
            && (i.Some? ==> PickOk(retailerId, Pick(i.value, at, tasks)))
            && (i.None? ==> NoneDue(tasks, retailerId, at))
  {
    assert forall j :: 0 <= j < |tasks| ==> (Due(tasks[j], retailerId, at) <==> Ready(tasks[j], retailerId, at));
  }

  ghost predicate NoneDue(tasks: seq<Task>, retailerId: int, at: Time) {
    forall j :: 0 <= j < |tasks| ==> !Due(tasks[j], retailerId, at)
  }

  /** The report lists the selections in order; only a selection that stops the drain is missing. */
  ghost predicate PicksOk(retailerId: int, s: Drain) {
    && (forall k :: 0 <= k < |s.picks| ==> PickOk(retailerId, s.picks[k]))
    && |s.taken| <= |s.picks| && (forall k :: 0 <= k < |s.taken| ==> s.taken[k].id == s.picks[k].id)
    && |s.picks| == |s.taken| + (if s.stop.None? || s.stop == Some(QueueEmpty) then 0 else 1)
  }

  lemma TurnKeepsOrder(p: Policy, retailerId: int, start: seq<Task>, s: Drain, w: World)
    requires PolicyOk(p) && s.stop.None? && QueueOk(start, s.tables.tasks, s.taken) && PicksOk(retailerId, s)
    ensures var u := Turn(p, retailerId, s, w);
            && QueueOk(start, u.tables.tasks, u.taken) && PicksOk(retailerId, u)
            && |u.picks| <= |s.picks| + 1 && (u.stop.None? ==> |u.taken| == |s.taken| + 1)
            && (u.stop == Some(QueueEmpty) ==> NoneDue(u.tables.tasks, retailerId, u.clock))
  {
    hide TakeTask, QueueOk, PickOk, NoneDue, TurnedQueue;
    NextIsPickOk(s.tables.tasks, retailerId, s.clock);
    var next := NextTask(s.tables.tasks, retailerId, s.clock);
    if next.Some? {
      var i := next.value;
      var turn := TakeTask(p, s.tables, s.limiter, s.clock, i, w);
      TakeQueue(p, s.tables, s.limiter, s.clock, i, w);
      TurnKeepsQueue(start, s.tables.tasks, turn.tables.tasks, s.taken, i, turn.taken);
    }
  }

  lemma {:induction false} DrainKeepsOrder(p: Policy, retailerId: int, start: seq<Task>, s: Drain, worlds: seq<World>)
    requires PolicyOk(p) && s.stop.None? && QueueOk(start, s.tables.tasks, s.taken) && PicksOk(retailerId, s)
    ensures var u := DrainFrom(p, retailerId, s, worlds);
            && QueueOk(start, u.tables.tasks, u.taken) && PicksOk(retailerId, u)
            && |u.picks| <= |s.picks| + |worlds|
            && (u.stop == Some(QueueEmpty) ==> NoneDue(u.tables.tasks, retailerId, u.clock))
            && (u.stop.None? ==> |u.taken| == |s.taken| + |worlds|)
    decreases worlds
  {
    hide Turn, QueueOk, PicksOk, NoneDue;
    if worlds != [] {
      TurnKeepsOrder(p, retailerId, start, s, worlds[0]);
      var u := Turn(p, retailerId, s, worlds[0]);
      if u.stop.None? { DrainKeepsOrder(p, retailerId, start, u, worlds[1..]); }
    }
  }

  /** Whatever is still LEASED was so before, and untouched. */
  ghost predicate NoneLeft(before: seq<Task>, tasks: seq<Task>) {
    forall i :: 0 <= i < |tasks| && tasks[i].status == Leased ==> i < |before| && tasks[i] == before[i]
  }

  lemma NoneLeased(before: seq<Task>, retailerId: int, now: Time, tasks: seq<Task>, taken: seq<Taken>)
    requires QueueOk(ExpireOverdueTasks(before, retailerId, now), tasks, taken)
    ensures NoneLeft(before, tasks)
  {
    assert forall k :: 0 <= k < |taken| ==> tasks[taken[k].id].status != Leased;
    forall i | 0 <= i < |tasks| && tasks[i].status == Leased ensures i < |before| && tasks[i] == before[i] {
      assert !Reported(taken, i);
    }
  }

  lemma StartIsOrdered(t: Tables, limiter: State, retailerId: int, now: Time)
    ensures var s := StartDrain(t, limiter, retailerId, now);
            && s.stop.None? && s.tables.tasks == ExpireOverdueTasks(t.tasks, retailerId, now)
            && QueueOk(s.tables.tasks, s.tables.tasks, []) && PicksOk(retailerId, s) && s.taken == [] && s.picks == []
  {
  }

  /** A whole drain: every selection was ready and first, no task is taken twice and at most
      max_tasks are, the report tells each one's final status, nothing else in the queue
      changes but for new CONFIRM tasks, and none is left LEASED that was not before. */
  lemma DrainOrder(p: Policy, retailerId: int, t: Tables, limiter: State, now: Time, worlds: seq<World>)
    requires PolicyOk(p)
    ensures var u := DrainQueue(p, retailerId, t, limiter, now, worlds);
            && PicksOk(retailerId, u) && |u.taken| <= |worlds|
            && (u.stop.None? ==> |u.taken| == |worlds|)
            && (u.stop == Some(QueueEmpty) ==> NoneDue(u.tables.tasks, retailerId, u.clock))
            && (u.stop == Some(IngestFailed) ==> u.tables == t)
            && (u.stop != Some(IngestFailed) ==>
                  QueueOk(ExpireOverdueTasks(t.tasks, retailerId, now), u.tables.tasks, u.taken)
                      && NoneLeft(t.tasks, u.tables.tasks))
  {
    hide Apply, Turn, QueueOk, NoneLeft, PickOk, StartDrain;
    StartIsOrdered(t, limiter, retailerId, now);
    var s := StartDrain(t, limiter, retailerId, now);
    DrainKeepsOrder(p, retailerId, s.tables.tasks, s, worlds);
    var v := DrainFrom(p, retailerId, s, worlds);
    NoneLeased(t.tasks, retailerId, now, v.tables.tasks, v.taken);
  }

  // ---------------------------------------------------------------- the tables' side

  lemma {:induction false} ListingsAreRun(t: Tables, fetches: seq<Fetch>, task: Task) returns (steps: seq<Step>)
    requires IngestListings(t, fetches, task).Some?
    ensures IngestListings(t, fetches, task) == Some(Run(t, steps))
    decreases fetches
  {
    if fetches == [] {
      steps := [];
    } else {
      var f := ForTask(fetches[0], task);
      IngestIsRun(t, f);
      var rest := ListingsAreRun(Ingest(t, f), fetches[1..], task);
      RunConcat(t, IngestSteps(t, f), rest);
      steps := IngestSteps(t, f) + rest;
    }
  }

  lemma RunOne(t: Tables, step: Step)
    ensures Run(t, [step]) == Apply(t, step)
  {
    assert Run(Apply(t, step), []) == Apply(t, step);
  }

  lemma LeaseThen(t: Tables, i: nat, middle: seq<Step>, status: TaskStatus)
    ensures Run(t, [Lease(i)] + middle + [Finish(i, status)]) == Finished(Run(Leasing(t, i), middle), i, status)
  {
    RunOne(t, Lease(i));
    RunConcat(t, [Lease(i)], middle);
    RunConcat(t, [Lease(i)] + middle, [Finish(i, status)]);
    RunOne(Run(Leasing(t, i), middle), Finish(i, status));
  }

  lemma TakeIsRun(p: Policy, t: Tables, s: State, clock: Time, i: nat, w: World) returns (steps: seq<Step>)
    requires PolicyOk(p) && i < |t.tasks|
    ensures TakeTask(p, t, s, clock, i, w).tables == Run(t, steps)
  {
    var turn := TakeTask(p, t, s, clock, i, w);
    var denial := CanAdmit(p, s, t.tasks[i].kind, clock).1;
    if turn.taken.None? {
      steps := [];
    } else if denial.Some? || !w.robotsAllow {
      steps := [Finish(i, turn.taken.value)];
      RunOne(t, steps[0]);
    } else {
      var middle := [];
      if w.answer.Listings? { middle := ListingsAreRun(Leasing(t, i), w.answer.fetches, t.tasks[i]); }
      LeaseThen(t, i, middle, turn.taken.value);
      steps := [Lease(i)] + middle + [Finish(i, turn.taken.value)];
    }
  }

  lemma {:induction false} LoopIsRun(p: Policy, retailerId: int, s: Drain,
                                     worlds: seq<World>)
    returns (steps: seq<Step>)
    requires PolicyOk(p)
    ensures DrainFrom(p, retailerId, s, worlds).tables == Run(s.tables, steps)
    decreases worlds
  {
    steps := [];
    if worlds != [] && s.stop.None? {
      var u := Turn(p, retailerId, s, worlds[0]);
      var rest := LoopIsRun(p, retailerId, u, worlds[1..]);
      var next := NextTask(s.tables.tasks, retailerId, s.clock);
      if next.None? {
        steps := rest;
      } else {
        var first := TakeIsRun(p, s.tables, s.limiter, s.clock, next.value, worlds[0]);
        RunConcat(s.tables, first, rest);
        steps := first + rest;
      }
    }
  }

  /** A drain is a run, so every invariant of runs holds after it, whatever the outside does. */
  lemma DrainIsRun(p: Policy, retailerId: int, t: Tables, limiter: State, now: Time,
                   worlds: seq<World>)
    returns (steps: seq<Step>)
    requires PolicyOk(p)
    ensures DrainQueue(p, retailerId, t, limiter, now, worlds).tables == Run(t, steps)
  {
    var s := StartDrain(t, limiter, retailerId, now);
    if DrainFrom(p, retailerId, s, worlds).stop == Some(IngestFailed) {
      steps := [];
    } else {
      var rest := LoopIsRun(p, retailerId, s, worlds);
      RunOne(t, RefuseOverdue(retailerId, now));
      RunConcat(t, [RefuseOverdue(retailerId, now)], rest);
      steps := [RefuseOverdue(retailerId, now)] + rest;
    }
  }

  /** The deals and the queue keep their invariants through a drain. */
  lemma DrainKeepsTables(p: Policy, retailerId: int, t: Tables, limiter: State, now: Time, worlds: seq<World>)
    requires PolicyOk(p) && Lifecycle.DealsOk(t) && TaskQueue.TasksOk(t)
    ensures var u := DrainQueue(p, retailerId, t, limiter, now, worlds).tables;
            && Lifecycle.DealsOk(u) && TaskQueue.TasksOk(u) && t.observations <= u.observations
            && Runs.Evolved(t.deals, u.deals)
  {
    var steps := DrainIsRun(p, retailerId, t, limiter, now, worlds);
    Runs.RunKeeps(t, steps);
    TaskQueue.RunKeepsTasks(t, steps);
  }
}
