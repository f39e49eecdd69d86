/** Draining one retailer's queue (fpt/scheduler/queue.py) as a function of what the outside
    answers on each turn. */
module DrainRules {
  import opened Core
  import opened Schema
  import opened DealRules
  import opened Steps
  import opened LimiterRules
  import opened LimiterHistory

  /** What one turn meets outside: robots.txt, the fetch and its page, and the limiter's
      random delay. */
  datatype World = World(robotsAllow: bool, answer: Answer, delay: Time)

  datatype Answer =
    | UnsafeUrl
    | TransportFailed
    | NotOk(blocked: bool)
    | Unparsable
    | Listings(fetches: seq<Fetch>)

  /** next_delay_s lies between the minimum delay and that plus the jitter. */
  predicate DelayOk(p: Policy, w: World) {
    p.minDelay <= w.delay <= p.minDelay + p.jitter
  }

  // ---------------------------------------------------------------- selection

  predicate Drainable(kind: TaskKind) {
    kind == ConfirmTask || kind == EnrollTask || kind == HotTask || kind == BaselineTask
  }

  predicate Ready(task: Task, retailerId: int, clock: Time) {
    task.retailerId == retailerId && task.status == Queued && task.notBefore <= clock && Drainable(task.kind)
  }

  predicate NoLater(a: Task, b: Task) {
    a.priority < b.priority || (a.priority == b.priority && a.notBefore <= b.notBefore)
  }

  /** ORDER BY priority, not_before LIMIT 1; of equal tasks, the oldest. */
  function NextTask(tasks: seq<Task>, retailerId: int, clock: Time): (r: Option<nat>)
    ensures r.Some? ==> r.value < |tasks| && Ready(tasks[r.value], retailerId, clock)
    ensures r.Some? ==> forall j :: 0 <= j < |tasks| && Ready(tasks[j], retailerId, clock) ==>
              NoLater(tasks[r.value], tasks[j])
    ensures r.None? ==> forall j :: 0 <= j < |tasks| ==> !Ready(tasks[j], retailerId, clock)
  {
    if tasks == [] then None else
      var n := |tasks| - 1;
      var best := NextTask(tasks[..n], retailerId, clock);
      if !Ready(tasks[n], retailerId, clock) then best
      else if best.Some? && NoLater(tasks[best.value], tasks[n]) then best
      else Some(n)
  }

  // ---------------------------------------------------------------- one turn

  datatype Stop = QueueEmpty | Denied(denial: Denial) | IngestFailed

  /** The part of a page's fetch that the queue fixes: it passes its own task. */
  function ForTask(f: Fetch, task: Task): Fetch {
    f.(retailerId := task.retailerId, category := task.category, kind := task.kind, ownsTask := false,
       skipConfirmTask := false)
  }

  /** Every listing of the page in turn; None when one raises. */
  function IngestListings(t: Tables, fetches: seq<Fetch>, task: Task): Option<Tables>
    decreases fetches
  {
    if fetches == [] then Some(t) else
      var f := ForTask(fetches[0], task);
      if !IngestSucceeds(t, f) then None else IngestListings(Ingest(t, f), fetches[1..], task)
  }

  /** What a turn leaves: `taken` is the final status of the selected row, `pause` says that the clock moves. */
  datatype Turned = Turned(tables: Tables, limiter: State, events: seq<Event>, taken: Option<TaskStatus>, pause: bool,
                           stop: Option<Stop>)

  function Finished(t: Tables, i: nat, status: TaskStatus): Tables {
    t.(tasks := FinishTask(t.tasks, i, status))
  }

  function Leasing(t: Tables, i: nat): Tables {
    t.(tasks := LeaseTask(t.tasks, i))
  }

  /** The admitted task's fetch, with the limiter as admission left it. */
  function FetchTask(p: Policy, t: Tables, s: State, clock: Time, i: nat, answer: Answer): Turned
    requires p.minSample >= 1 && i < |t.tasks|
  {
    var task := t.tasks[i];
    var leased := Leasing(t, i);
    var sent := RecordRequest(s, clock);
    match answer
    case UnsafeUrl => Turned(Finished(leased, i, Failed), s, [Ask(task.kind, clock, false)], Some(Failed), true, None)
    case TransportFailed => Turned(Finished(leased, i, Failed), sent, [Ask(task.kind, clock, true)], Some(Failed), true,
                                   None)
    case NotOk(blocked) =>
      Turned(Finished(leased, i, Done), RecordOutcome(p, sent, blocked, clock),
             [Ask(task.kind, clock, true), Outcome(blocked, clock)], Some(Done), true, None)
    case Unparsable =>
      Turned(Finished(leased, i, Failed), RecordOutcome(p, sent, false, clock),
             [Ask(task.kind, clock, true), Outcome(false, clock)], Some(Failed), true, None)
    case Listings(fetches) =>
      var limiter := RecordOutcome(p, sent, false, clock);
      var events := [Ask(task.kind, clock, true), Outcome(false, clock)];
      var done := IngestListings(leased, fetches, task);
      if done.None? then Turned(t, limiter, events, None, false, Some(IngestFailed))
      else Turned(Finished(done.value, i, Done), limiter, events, Some(Done), true, None)
  }

  /** One selected task: over budget it is skipped, on another refusal the drain stops. */
  function TakeTask(p: Policy, t: Tables, s: State, clock: Time, i: nat, w: World): Turned
    requires p.minSample >= 1 && i < |t.tasks|
  {
    var kind := t.tasks[i].kind;
    var (r, denial) := CanAdmit(p, s, kind, clock);
    if denial == Some(HourlyCap) || denial == Some(DailyCap) then
      Turned(Finished(t, i, SkippedBudget), r, [Ask(kind, clock, false)], Some(SkippedBudget), false, None)
    else if denial.Some? then
      Turned(t, r, [Ask(kind, clock, false)], None, false, Some(Denied(denial.value)))
    else if !w.robotsAllow then
      Turned(Finished(t, i, SkippedRobots), r, [Ask(kind, clock, false)], Some(SkippedRobots), false, None)
    else FetchTask(p, t, r, clock, i, w.answer)
  }

  // ---------------------------------------------------------------- the loop

  /** A reported task: its id and what became of it. */
  datatype Taken = Taken(id: nat, status: TaskStatus)

  /** A selection: which task, when, out of which queue. */
  datatype Pick = Pick(id: nat, at: Time, queue: seq<Task>)

  datatype Drain = Drain(
    tables: Tables, limiter: State, clock: Time, taken: seq<Taken>,
    picks: seq<Pick>, events: seq<Event>, stop: Option<Stop>)

  function AfterTurn(s: Drain, i: nat, turn: Turned, w: World): Drain {
    Drain(turn.tables, turn.limiter, if turn.pause then s.clock + w.delay else s.clock,
          if turn.taken.Some? then s.taken + [Taken(i, turn.taken.value)] else s.taken,
          s.picks + [Pick(i, s.clock, s.tables.tasks)], s.events + turn.events, turn.stop)
  }

  function Turn(p: Policy, retailerId: int, s: Drain, w: World): Drain
    requires p.minSample >= 1
  {
    var i := NextTask(s.tables.tasks, retailerId, s.clock);
    if i.None? then s.(stop := Some(QueueEmpty))
    else AfterTurn(s, i.value, TakeTask(p, s.tables, s.limiter, s.clock, i.value, w), w)
  }

  /** for _ in range(max_tasks), one answer a turn. */
  function DrainFrom(p: Policy, retailerId: int, s: Drain, worlds: seq<World>): Drain
    requires p.minSample >= 1
    decreases worlds
  {
    if worlds == [] || s.stop.Some? then s else DrainFrom(p, retailerId, Turn(p, retailerId, s, worlds[0]), worlds[1..])
  }

  function StartDrain(t: Tables, limiter: State, retailerId: int, now: Time): Drain {
    Drain(Apply(t, RefuseOverdue(retailerId, now)), limiter, now, [], [], [], None)
  }

  /** drain_retailer_queue: first the deadline sweep, then the loop. An ingest that raises
      takes the transaction with it; the limiter is not part of the transaction. */
  function DrainQueue(p: Policy, retailerId: int, t: Tables, limiter: State, now: Time, worlds: seq<World>): Drain
    requires p.minSample >= 1
  {
    var s := DrainFrom(p, retailerId, StartDrain(t, limiter, retailerId, now), worlds);
    if s.stop == Some(IngestFailed) then s.(tables := t) else s
  }
}
