/** What a drain tells the limiter: exactly the requests it sent and the outcomes it met, each
    at the instant of its turn. */
module DrainEvents {
  import opened Core
  import opened Schema
  import opened LimiterRules
  import opened LimiterHistory
  import opened DrainRules
  import DrainOrder

  // ---------------------------------------------------------------- one turn

  /** The outcome that the breaker must hear of: a page that came back, blocked or not. */
  function Answered(answer: Answer): Option<bool> {
    match answer
    case NotOk(blocked) => Some(blocked)
    case Unparsable => Some(false)
    case Listings(_) => Some(false)
    case _ => None
  }

  /** The outcomes among the events, and the requests that were sent. */
  function Outcomes(events: seq<Event>): seq<(bool, Time)> {
    if events == [] then [] else
      var e := events[|events| - 1];
      Outcomes(events[..|events| - 1]) + (if e.Outcome? then [(e.blocked, e.now)] else [])
  }

  function Requests(events: seq<Event>): seq<(TaskKind, Time)> {
    if events == [] then [] else
      var e := events[|events| - 1];
      Requests(events[..|events| - 1]) + (if e.Ask? && e.send then [(e.kind, e.now)] else [])
  }

  /** The limiter admits the task and robots.txt allows it. */
  predicate Goes(p: Policy, t: Tables, s: State, clock: Time, i: nat, w: World)
    requires i < |t.tasks|
  {
    CanAdmit(p, s, t.tasks[i].kind, clock).1.None? && w.robotsAllow
  }

  lemma OneEvent(e: Event)
    ensures Outcomes([e]) == if e.Outcome? then [(e.blocked, e.now)] else []
    ensures Requests([e]) == if e.Ask? && e.send then [(e.kind, e.now)] else []
  {
    assert [e][..0] == [];
  }

  lemma TwoEvents(a: Event, b: Event)
    ensures Outcomes([a, b]) == Outcomes([a]) + Outcomes([b]) && Requests([a, b]) == Requests([a]) + Requests([b])
  {
    OneEvent(a);
    OneEvent(b);
    assert [a, b][..1] == [a];
  }

  lemma TurnEvents(p: Policy, t: Tables, s: State, clock: Time, i: nat, w: World)
    requires p.minSample >= 1 && i < |t.tasks|
    ensures var ask := Ask(t.tasks[i].kind, clock, Goes(p, t, s, clock, i, w) && !w.answer.UnsafeUrl?);
            TakeTask(p, t, s, clock, i, w).events
              == if Goes(p, t, s, clock, i, w) && Answered(w.answer).Some?
                 then [ask, Outcome(Answered(w.answer).value, clock)] else [ask]
  {
    hide IngestListings, RecordOutcome, RecordRequest, CanAdmit;
  }

  /** A turn reports a request exactly when it sends one, and an outcome exactly when a page
      comes back: a block as a block, everything else as none. */
  lemma TurnTells(p: Policy, t: Tables, s: State, clock: Time, i: nat, w: World)
    requires p.minSample >= 1 && i < |t.tasks|
    ensures var events := TakeTask(p, t, s, clock, i, w).events; var goes := Goes(p, t, s, clock, i, w);
            && Requests(events) == (if goes && !w.answer.UnsafeUrl? then [(t.tasks[i].kind, clock)] else [])
            && Outcomes(events)
                 == (if goes && Answered(w.answer).Some? then [(Answered(w.answer).value, clock)] else [])
            && (Outcome(true, clock) in events <==> goes && w.answer == NotOk(true))
            && (Outcome(false, clock) in events <==>
                  goes && (w.answer == NotOk(false) || w.answer.Unparsable? || w.answer.Listings?))
  {
    hide TakeTask, Goes, Outcomes, Requests;
    TurnEvents(p, t, s, clock, i, w);
    var goes := Goes(p, t, s, clock, i, w);
    var ask := Ask(t.tasks[i].kind, clock, goes && !w.answer.UnsafeUrl?);
    OneEvent(ask);
    if goes && Answered(w.answer).Some? {
      var outcome := Outcome(Answered(w.answer).value, clock);
      OneEvent(outcome);
      TwoEvents(ask, outcome);
    }
  }

  // ---------------------------------------------------------------- whole drains

  /** Turn k fetched: its task is reported as DONE or FAILED, or its page aborted the drain. */
  predicate Fetched(s: Drain, k: nat) {
    || (k < |s.taken| && (s.taken[k].status == Done || s.taken[k].status == Failed))
    || (k == |s.taken| && s.stop == Some(IngestFailed))
  }

  /** The outcomes of the first n turns, in order. */
  function AnswersOf(s: Drain, worlds: seq<World>, n: nat): seq<(bool, Time)>
    requires n <= |s.picks| && n <= |worlds|
  {
    if n == 0 then [] else
      var answer := Answered(worlds[n - 1].answer);
      AnswersOf(s, worlds, n - 1)
      + (if Fetched(s, n - 1) && answer.Some? then [(answer.value, s.picks[n - 1].at)] else [])
  }

  ghost predicate PicksInQueue(s: Drain) {
    forall k :: 0 <= k < |s.picks| ==> s.picks[k].id < |s.picks[k].queue|
  }

  /** The requests of the first n turns, in order. */
  ghost function RequestsOf(s: Drain, worlds: seq<World>, n: nat): seq<(TaskKind, Time)>
    requires PicksInQueue(s) && n <= |s.picks| && n <= |worlds|
  {
    if n == 0 then [] else
      var pick := s.picks[n - 1];
      RequestsOf(s, worlds, n - 1)
      + (if Fetched(s, n - 1) && !worlds[n - 1].answer.UnsafeUrl? then [(pick.queue[pick.id].kind, pick.at)] else [])
  }

  /** What was told so far is what happened so far; `worlds` are the turns taken. */
  ghost predicate Told(s: Drain, worlds: seq<World>) {
    && PicksInQueue(s) && |s.picks| <= |worlds| && |s.taken| <= |s.picks|
    && (s.stop.None? ==> |s.taken| == |s.picks| == |worlds|)
    && Outcomes(s.events) == AnswersOf(s, worlds, |s.picks|)
    && Requests(s.events) == RequestsOf(s, worlds, |s.picks|)
  }

  /** The second drain goes on where the first one is. */
  ghost predicate Continues(a: Drain, b: Drain) {
    && a.stop.None? && a.picks <= b.picks && a.taken <= b.taken && |a.taken| == |a.picks|
  }

  lemma {:induction false} SameAnswers(a: Drain, b: Drain, worlds: seq<World>, more: seq<World>, n: nat)
    requires Continues(a, b) && worlds <= more && n <= |a.picks| <= |worlds| && PicksInQueue(a) && PicksInQueue(b)
    ensures AnswersOf(a, worlds, n) == AnswersOf(b, more, n) && RequestsOf(a, worlds, n) == RequestsOf(b, more, n)
  {
    if n > 0 {
      SameAnswers(a, b, worlds, more, n - 1);
      assert a.picks[n - 1] == b.picks[n - 1] && a.taken[n - 1] == b.taken[n - 1] && worlds[n - 1] == more[n - 1];
    }
  }

  lemma {:induction false} EventsAppend(a: seq<Event>, b: seq<Event>)
    ensures Outcomes(a + b) == Outcomes(a) + Outcomes(b) && Requests(a + b) == Requests(a) + Requests(b)
  {
    if b == [] {
      assert a + b == a;
    } else {
      var n := |b| - 1;
      EventsAppend(a, b[..n]);
      assert (a + b)[..|a + b| - 1] == a + b[..n];
      assert (a + b)[|a + b| - 1] == b[n];
    }
  }

  /** A turn fetches exactly when its task goes. */
  lemma GoesMeansFetched(p: Policy, t: Tables, s: State, clock: Time, i: nat, w: World)
    requires p.minSample >= 1 && i < |t.tasks|
    ensures var turn := TakeTask(p, t, s, clock, i, w);
            && (Goes(p, t, s, clock, i, w) <==>
                  turn.taken == Some(Done) || turn.taken == Some(Failed) || turn.stop == Some(IngestFailed))
            && (turn.taken.Some? <==> turn.stop.None?)
  {
    hide IngestListings, RecordOutcome, RecordRequest, CanAdmit;
  }

  lemma TurnToldHere(p: Policy, s: Drain, worlds: seq<World>, i: nat, w: World)
    requires p.minSample >= 1 && Told(s, worlds) && s.stop.None? && i < |s.tables.tasks|
    ensures Told(AfterTurn(s, i, TakeTask(p, s.tables, s.limiter, s.clock, i, w), w), worlds + [w])
  {
    hide TakeTask, Goes, Answered, Outcomes, Requests;
    var turn := TakeTask(p, s.tables, s.limiter, s.clock, i, w);
    var u, more, n := AfterTurn(s, i, turn, w), worlds + [w], |s.picks|;
    TurnTells(p, s.tables, s.limiter, s.clock, i, w);
    GoesMeansFetched(p, s.tables, s.limiter, s.clock, i, w);
    EventsAppend(s.events, turn.events);
    assert PicksInQueue(u);
    SameAnswers(s, u, worlds, more, n);
    assert more[n] == w && u.picks[n] == Pick(i, s.clock, s.tables.tasks);
    assert turn.taken.Some? ==> u.taken[n] == Taken(i, turn.taken.value);
    assert Fetched(u, n) <==> Goes(p, s.tables, s.limiter, s.clock, i, w);
  }

  lemma StoppedTold(s: Drain, worlds: seq<World>, w: World)
    requires Told(s, worlds) && s.stop.None?
    ensures Told(s.(stop := Some(QueueEmpty)), worlds + [w])
  {
    SameAnswers(s, s.(stop := Some(QueueEmpty)), worlds, worlds + [w], |s.picks|);
  }

  lemma {:induction false} ExtraWorlds(s: Drain, worlds: seq<World>, more: seq<World>, n: nat)
    requires PicksInQueue(s) && n <= |s.picks| && n <= |worlds| && worlds <= more
    ensures AnswersOf(s, worlds, n) == AnswersOf(s, more, n) && RequestsOf(s, worlds, n) == RequestsOf(s, more, n)
  {
    if n > 0 { ExtraWorlds(s, worlds, more, n - 1); }
  }

  lemma {:induction false} LoopTells(p: Policy, retailerId: int, s: Drain, done: seq<World>, worlds: seq<World>)
    requires p.minSample >= 1 && Told(s, done) && s.stop.None?
    ensures Told(DrainFrom(p, retailerId, s, worlds), done + worlds)
    decreases worlds
  {
    hide Told;
    if worlds == [] {
      assert done + worlds == done;
    } else {
      var w := worlds[0];
      var next := NextTask(s.tables.tasks, retailerId, s.clock);
      if next.None? { StoppedTold(s, done, w); } else { TurnToldHere(p, s, done, next.value, w); }
      var u := Turn(p, retailerId, s, w);
      assert done + worlds == done + [w] + worlds[1..];
      if u.stop.None? {
        LoopTells(p, retailerId, u, done + [w], worlds[1..]);
      } else {
        MoreTold(u, done + [w], worlds[1..]);
      }
    }
  }

  lemma MoreTold(s: Drain, done: seq<World>, worlds: seq<World>)
    requires Told(s, done) && s.stop.Some?
    ensures Told(s, done + worlds)
  {
    ExtraWorlds(s, done, done + worlds, |s.picks|);
  }

  lemma StartTold(t: Tables, limiter: State, retailerId: int, now: Time)
    ensures Told(StartDrain(t, limiter, retailerId, now), [])
  {
  }

  /** Over a whole drain, the requests recorded are exactly those of the fetched tasks whose
      URL was safe, and the outcomes exactly those of the pages that came back, each in order
      and at the instant its task was selected. */
  lemma DrainTells(p: Policy, retailerId: int, t: Tables, limiter: State, now: Time, worlds: seq<World>)
    requires p.minSample >= 1
    ensures Told(DrainQueue(p, retailerId, t, limiter, now, worlds), worlds)
  {
    hide StartDrain, Told;
    StartTold(t, limiter, retailerId, now);
    var s := StartDrain(t, limiter, retailerId, now);
    assert s.stop.None? by { DrainOrder.StartIsOrdered(t, limiter, retailerId, now); }
    assert [] + worlds == worlds;
    LoopTells(p, retailerId, s, [], worlds);
    TablesAside(DrainFrom(p, retailerId, s, worlds), t, worlds);
  }

  lemma TablesAside(s: Drain, t: Tables, worlds: seq<World>)
    requires Told(s, worlds)
    ensures Told(s.(tables := t), worlds)
  {
    SamePicks(s, s.(tables := t), worlds, |s.picks|);
  }

  lemma {:induction false} SamePicks(a: Drain, b: Drain, worlds: seq<World>, n: nat)
    requires a.picks == b.picks && a.taken == b.taken && a.stop == b.stop && PicksInQueue(a)
    requires n <= |a.picks| && n <= |worlds|
    ensures AnswersOf(a, worlds, n) == AnswersOf(b, worlds, n) && RequestsOf(a, worlds, n) == RequestsOf(b, worlds, n)
  {
    if n > 0 { SamePicks(a, b, worlds, n - 1); }
  }

  // ---------------------------------------------------------------- the limiter's history

  function Flags(outcomes: seq<(bool, Time)>): (r: seq<bool>)
    ensures |r| == |outcomes|
  {
    seq(|outcomes|, i requires 0 <= i < |outcomes| => outcomes[i].0)
  }

  /** The outcome history is that of the events. */
  lemma {:induction false} HistoryOutcomes(p: Policy, events: seq<Event>)
    requires p.minSample >= 1
    ensures TraceOf(p, events).outcomes == Flags(Outcomes(events))
  {
    hide CanAdmit, RecordRequest, RecordOutcome, Trips;
    if events != [] {
      var n := |events| - 1;
      HistoryOutcomes(p, events[..n]);
      if events[n].Outcome? {
        assert TraceOf(p, events).outcomes == TraceOf(p, events[..n]).outcomes + [events[n].blocked];
      } else {
        assert TraceOf(p, events).outcomes == TraceOf(p, events[..n]).outcomes;
      }
    }
  }

  lemma FlagsAppend(a: seq<(bool, Time)>, b: seq<(bool, Time)>)
    ensures Flags(a + b) == Flags(a) + Flags(b)
  {
  }

  /** After a drain, the limiter's outcome history is the one before and then the outcome of
      every page that came back, in order. */
  lemma DrainOutcomes(p: Policy, retailerId: int, before: seq<Event>, t: Tables, now: Time, worlds: seq<World>)
    requires p.minSample >= 1
    ensures var u := DrainQueue(p, retailerId, t, TraceOf(p, before).s, now, worlds);
            && Told(u, worlds)
            && TraceOf(p, before + u.events).outcomes
                 == TraceOf(p, before).outcomes + Flags(AnswersOf(u, worlds, |u.picks|))
  {
    hide TraceOf, DrainQueue;
    var u := DrainQueue(p, retailerId, t, TraceOf(p, before).s, now, worlds);
    DrainTells(p, retailerId, t, TraceOf(p, before).s, now, worlds);
    EventsAppend(before, u.events);
    HistoryOutcomes(p, before);
    HistoryOutcomes(p, before + u.events);
    FlagsAppend(Outcomes(before), Outcomes(u.events));
  }

  // ---------------------------------------------------------------- the clock

  /** The first selection is made at once, and each further one as long after the one before
      as the limiter's delay, if that one was fetched, and at the same instant otherwise. */
  ghost predicate Timed(s: Drain, now: Time, worlds: seq<World>) {
    && |s.picks| <= |worlds| && (s.stop.None? ==> |s.picks| == |s.taken|)
    && (forall k :: 0 <= k < |s.picks| ==>
          s.picks[k].at == if k == 0 then now else s.picks[k - 1].at + Pause(s, worlds, k - 1))
    && (s.stop.None? ==> s.clock == if s.picks == [] then now else
          s.picks[|s.picks| - 1].at + Pause(s, worlds, |s.picks| - 1))
  }

  function Pause(s: Drain, worlds: seq<World>, k: nat): Time
    requires k < |worlds|
  {
    if k < |s.taken| && (s.taken[k].status == Done || s.taken[k].status == Failed) then worlds[k].delay else 0
  }

  lemma TurnPauses(p: Policy, t: Tables, s: State, clock: Time, i: nat, w: World)
    requires p.minSample >= 1 && i < |t.tasks|
    ensures var turn := TakeTask(p, t, s, clock, i, w);
            && (turn.pause <==> turn.taken == Some(Done) || turn.taken == Some(Failed))
            && (turn.taken.Some? <==> turn.stop.None?)
  {
    hide IngestListings, RecordOutcome, RecordRequest, CanAdmit;
  }

  lemma TurnTimed(p: Policy, retailerId: int, s: Drain, now: Time, done: seq<World>, w: World)
    requires p.minSample >= 1 && s.stop.None? && Timed(s, now, done) && |done| == |s.picks|
    ensures var u := Turn(p, retailerId, s, w); Timed(u, now, done + [w]) && (u.stop.None? ==> |u.picks| == |done| + 1)
  {
    hide TakeTask, NextTask, Timed;
    var i := NextTask(s.tables.tasks, retailerId, s.clock);
    if i.None? {
      StopTimed(s, now, done, w);
    } else {
      var turn := TakeTask(p, s.tables, s.limiter, s.clock, i.value, w);
      TurnPauses(p, s.tables, s.limiter, s.clock, i.value, w);
      AfterTurnTimed(s, now, done, i.value, turn, w);
    }
  }

  lemma StopTimed(s: Drain, now: Time, done: seq<World>, w: World)
    requires s.stop.None? && Timed(s, now, done)
    ensures Timed(s.(stop := Some(QueueEmpty)), now, done + [w])
  {
    var u := s.(stop := Some(QueueEmpty));
    forall k | 0 <= k < |done| ensures Pause(u, done + [w], k) == Pause(s, done, k) {
      assert (done + [w])[k] == done[k];
    }
  }

  lemma AfterTurnTimed(s: Drain, now: Time, done: seq<World>, i: nat, turn: Turned, w: World)
    requires s.stop.None? && Timed(s, now, done) && |done| == |s.picks|
    requires turn.pause <==> turn.taken == Some(Done) || turn.taken == Some(Failed)
    requires turn.taken.Some? <==> turn.stop.None?
    ensures var u := AfterTurn(s, i, turn, w); Timed(u, now, done + [w]) && |u.picks| == |done| + 1
  {
    var u, more, n := AfterTurn(s, i, turn, w), done + [w], |s.picks|;
    forall k | 0 <= k < n ensures u.picks[k] == s.picks[k] && Pause(u, more, k) == Pause(s, done, k) {
      assert more[k] == done[k] && u.taken[k] == s.taken[k];
    }
    assert more[n] == w && u.picks[n].at == s.clock;
    assert u.stop.None? ==> u.taken[n] == Taken(i, turn.taken.value);
  }

  lemma {:induction false} LoopTimed(p: Policy, retailerId: int, s: Drain, now: Time, done: seq<World>,
                                     worlds: seq<World>)
    requires p.minSample >= 1 && s.stop.None? && Timed(s, now, done) && |done| == |s.picks|
    ensures Timed(DrainFrom(p, retailerId, s, worlds), now, done + worlds)
    decreases worlds
  {
    hide Turn;
    if worlds == [] {
      assert done + worlds == done;
    } else {
      TurnTimed(p, retailerId, s, now, done, worlds[0]);
      var u := Turn(p, retailerId, s, worlds[0]);
      assert done + worlds == done + [worlds[0]] + worlds[1..];
      if u.stop.None? {
        LoopTimed(p, retailerId, u, now, done + [worlds[0]], worlds[1..]);
      } else {
        assert forall k :: 0 <= k <= |done| ==> Pause(u, done + [worlds[0]], k) == Pause(u, done + worlds, k);
      }
    }
  }

  /** The drain's clock: it moves by the limiter's delay after each fetch and by nothing else. */
  lemma DrainTimed(p: Policy, retailerId: int, t: Tables, limiter: State, now: Time, worlds: seq<World>)
    requires p.minSample >= 1
    ensures Timed(DrainQueue(p, retailerId, t, limiter, now, worlds), now, worlds)
  {
    assert [] + worlds == worlds;
    LoopTimed(p, retailerId, StartDrain(t, limiter, retailerId, now), now, [], worlds);
    var s := DrainFrom(p, retailerId, StartDrain(t, limiter, retailerId, now), worlds);
    assert forall k :: 0 <= k < |worlds| ==> Pause(s.(tables := t), worlds, k) == Pause(s, worlds, k);
  }
}
