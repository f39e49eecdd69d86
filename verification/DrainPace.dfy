/** Pacing of whole drains: the minimum delay, and a drain's calls as one more history of the
    limiter. */
module DrainPace {
  import opened Core
  import opened Schema
  import opened LimiterRules
  import opened LimiterHistory
  import opened Windows
  import opened DrainRules

  predicate Sends(e: Event) {
    e.Ask? && e.send
  }

  /** What each report means: over budget, refused by robots.txt, or fetched; a request is
      sent only for an admitted task that robots.txt and the URL check allow; and only a
      parsed page can change anything but the queue. */
  lemma TakenMeans(p: Policy, t: Tables, s: State, clock: Time, i: nat, w: World)
    requires PolicyOk(p) && i < |t.tasks| && t.tasks[i].status == Queued
    ensures var turn := TakeTask(p, t, s, clock, i, w);
            var denial := CanAdmit(p, s, t.tasks[i].kind, clock).1;
            && (turn.taken == Some(SkippedBudget) <==> denial == Some(HourlyCap) || denial == Some(DailyCap))
            && (turn.stop.Some? && turn.stop.value.Denied? <==>
                  denial == Some(IsDisabled) || denial == Some(BreakerOpen) || denial == Some(DelayNotElapsed))
            && (turn.taken == Some(SkippedRobots) <==> denial.None? && !w.robotsAllow)
            && ((exists e :: e in turn.events && Sends(e)) <==> denial.None? && w.robotsAllow && !w.answer.UnsafeUrl?)
            && (turn.taken == Some(Done) ==> denial.None? && w.robotsAllow && (w.answer.NotOk? || w.answer.Listings?))
            && (!(denial.None? && w.robotsAllow && w.answer.Listings?) ==>
                  turn.tables == t.(tasks := turn.tables.tasks) && turn.stop != Some(IngestFailed))
  {
    hide IngestListings, RecordOutcome, RecordRequest, RollBuckets;
    var turn := TakeTask(p, t, s, clock, i, w);
    assert turn.events[0] in turn.events;
  }

  /** The minimum delay since the last request is over. */
  predicate Rested(p: Policy, limiter: State, clock: Time) {
    limiter.lastRequestAt.Some? ==> clock - limiter.lastRequestAt.value >= p.minDelay
  }

  lemma TakeStaysRested(p: Policy, t: Tables, s: State, clock: Time, i: nat, w: World)
    requires PolicyOk(p) && i < |t.tasks| && Rested(p, s, clock)
    ensures var turn := TakeTask(p, t, s, clock, i, w);
            && turn.stop != Some(Denied(DelayNotElapsed))
            && (turn.pause || turn.stop.Some? || Rested(p, turn.limiter, clock))
            && (turn.limiter.lastRequestAt == s.lastRequestAt || turn.limiter.lastRequestAt == Some(clock))
  {
    hide IngestListings, ShouldTrip, Within48h, Push;
  }

  lemma TurnStaysRested(p: Policy, retailerId: int, s: Drain, w: World)
    requires PolicyOk(p) && DelayOk(p, w) && Rested(p, s.limiter, s.clock) && s.stop.None?
    ensures var u := Turn(p, retailerId, s, w);
            && u.stop != Some(Denied(DelayNotElapsed))
            && (u.stop.None? ==> Rested(p, u.limiter, u.clock))
            && u.clock >= s.clock
  {
    hide TakeTask;
    var i := NextTask(s.tables.tasks, retailerId, s.clock);
    if i.Some? { TakeStaysRested(p, s.tables, s.limiter, s.clock, i.value, w); }
  }

  /** Entered with the minimum delay over, a drain never stops because it is not. */
  lemma {:induction false} NeverStopsForDelay(p: Policy, retailerId: int, s: Drain, worlds: seq<World>)
    requires PolicyOk(p) && (forall i :: 0 <= i < |worlds| ==> DelayOk(p, worlds[i]))
    requires s.stop.None? && Rested(p, s.limiter, s.clock)
    ensures DrainFrom(p, retailerId, s, worlds).stop != Some(Denied(DelayNotElapsed))
    decreases worlds
  {
    hide Turn;
    if worlds != [] {
      TurnStaysRested(p, retailerId, s, worlds[0]);
      var u := Turn(p, retailerId, s, worlds[0]);
      if u.stop.None? { NeverStopsForDelay(p, retailerId, u, worlds[1..]); }
    }
  }

  /** The limiter is where these calls would leave a fresh one, and the clock is past them. */
  ghost predicate RecordedAt(p: Policy, events: seq<Event>, limiter: State, clock: Time)
    requires p.minSample >= 1
  {
    && TraceOf(p, events).s == limiter
    && ClockForward(events)
    && (forall i :: 0 <= i < |events| ==> events[i].now <= clock)
  }

  ghost predicate Recorded(p: Policy, before: seq<Event>, s: Drain)
    requires p.minSample >= 1
  {
    RecordedAt(p, before + s.events, s.limiter, s.clock)
  }

  lemma ReplayOne(p: Policy, events: seq<Event>, e: Event)
    requires p.minSample >= 1
    ensures TraceOf(p, events + [e]) == Advance(p, TraceOf(p, events), e)
  {
    assert (events + [e])[..|events|] == events;
  }

  lemma ReplayTwo(p: Policy, events: seq<Event>, a: Event, b: Event)
    requires p.minSample >= 1
    ensures TraceOf(p, events + [a, b]) == Advance(p, Advance(p, TraceOf(p, events), a), b)
  {
    ReplayOne(p, events, a);
    ReplayOne(p, events + [a], b);
    assert events + [a] + [b] == events + [a, b];
  }

  lemma FetchRecorded(p: Policy, events: seq<Event>, t: Tables, s: State, clock: Time, i: nat, answer: Answer)
    requires PolicyOk(p) && i < |t.tasks| && TraceOf(p, events).s == s
    requires CanAdmit(p, s, t.tasks[i].kind, clock).1.None?
    ensures var turn := FetchTask(p, t, CanAdmit(p, s, t.tasks[i].kind, clock).0, clock, i, answer);
            TraceOf(p, events + turn.events).s == turn.limiter
  {
    var kind := t.tasks[i].kind;
    match answer
    case UnsafeUrl => ReplayOne(p, events, Ask(kind, clock, false));
    case TransportFailed => ReplayOne(p, events, Ask(kind, clock, true));
    case NotOk(blocked) => ReplayTwo(p, events, Ask(kind, clock, true), Outcome(blocked, clock));
    case _ => ReplayTwo(p, events, Ask(kind, clock, true), Outcome(false, clock));
  }

  /** A turn's limiter is the replay of its events. */
  lemma TakeRecorded(p: Policy, events: seq<Event>, t: Tables, s: State, clock: Time, i: nat, w: World)
    requires PolicyOk(p) && i < |t.tasks| && TraceOf(p, events).s == s
    ensures var turn := TakeTask(p, t, s, clock, i, w); TraceOf(p, events + turn.events).s == turn.limiter
  {
    var kind := t.tasks[i].kind;
    if CanAdmit(p, s, kind, clock).1.None? && w.robotsAllow {
      FetchRecorded(p, events, t, s, clock, i, w.answer);
    } else {
      ReplayOne(p, events, Ask(kind, clock, false));
    }
  }

  lemma TakeAtClock(p: Policy, t: Tables, s: State, clock: Time, i: nat, w: World)
    requires PolicyOk(p) && i < |t.tasks|
    ensures var turn := TakeTask(p, t, s, clock, i, w); forall k :: 0 <= k < |turn.events| ==>
              turn.events[k].now == clock
  {
  }

  lemma ClockAppend(events: seq<Event>, more: seq<Event>, clock: Time)
    requires ClockForward(events) && (forall i :: 0 <= i < |events| ==> events[i].now <= clock)
    requires forall i :: 0 <= i < |more| ==> more[i].now == clock
    ensures ClockForward(events + more) && forall i :: 0 <= i < |events + more| ==> (events + more)[i].now <= clock
  {
  }

  lemma TakeRecordedAt(p: Policy, events: seq<Event>, t: Tables, s: State, clock: Time, i: nat, w: World, later: Time)
    requires PolicyOk(p) && i < |t.tasks| && RecordedAt(p, events, s, clock) && clock <= later
    ensures var turn := TakeTask(p, t, s, clock, i, w); RecordedAt(p, events + turn.events, turn.limiter, later)
  {
    var turn := TakeTask(p, t, s, clock, i, w);
    TakeRecorded(p, events, t, s, clock, i, w);
    TakeAtClock(p, t, s, clock, i, w);
    ClockAppend(events, turn.events, clock);
  }

  lemma TurnRecorded(p: Policy, retailerId: int, before: seq<Event>, s: Drain, w: World)
    requires PolicyOk(p) && DelayOk(p, w) && Recorded(p, before, s)
    ensures Recorded(p, before, Turn(p, retailerId, s, w))
  {
    hide TakeTask, RecordedAt, NextTask;
    var i := NextTask(s.tables.tasks, retailerId, s.clock);
    if i.Some? {
      var turn := TakeTask(p, s.tables, s.limiter, s.clock, i.value, w);
      var u := AfterTurn(s, i.value, turn, w);
      assert s.clock <= u.clock;
      TakeRecordedAt(p, before + s.events, s.tables, s.limiter, s.clock, i.value, w, u.clock);
      assert before + u.events == before + s.events + turn.events;
    }
  }

  lemma {:induction false} DrainRecorded(p: Policy, retailerId: int, before: seq<Event>, s: Drain, worlds: seq<World>)
    requires PolicyOk(p) && (forall i :: 0 <= i < |worlds| ==> DelayOk(p, worlds[i]))
    requires Recorded(p, before, s)
    ensures Recorded(p, before, DrainFrom(p, retailerId, s, worlds))
    decreases worlds
  {
    if worlds != [] && s.stop.None? {
      TurnRecorded(p, retailerId, before, s, worlds[0]);
      DrainRecorded(p, retailerId, before, Turn(p, retailerId, s, worlds[0]), worlds[1..]);
    }
  }

  /** Whatever the limiter saw before, the requests of a drain join that history: any two in
      a row are the minimum delay apart and no window holds more than twice its cap. */
  lemma DrainPaced(p: Policy, retailerId: int, before: seq<Event>, t: Tables, now: Time, worlds: seq<World>, lo: Time,
                   hi: Time)
    requires PolicyOk(p) && (forall i :: 0 <= i < |worlds| ==> DelayOk(p, worlds[i]))
    requires ClockForward(before) && forall i :: 0 <= i < |before| ==> before[i].now <= now
    ensures var u := DrainQueue(p, retailerId, t, TraceOf(p, before).s, now, worlds);
            var sent := TraceOf(p, before + u.events).sent;
            && TraceOf(p, before + u.events).s == u.limiter
            && (forall i :: 0 <= i < |sent| - 1 ==> sent[i + 1].at - sent[i].at >= p.minDelay)
            && (hi - lo <= HOUR ==> CountBetween(Hours(sent), lo, hi) <= 2 * p.maxPerHour)
            && (hi - lo <= DAY ==> CountBetween(Days(sent), lo, hi) <= 2 * p.maxPerDay)
  {
    hide DrainFrom, TraceOf, CountBetween;
    var s := StartDrain(t, TraceOf(p, before).s, retailerId, now);
    assert before + s.events == before;
    DrainRecorded(p, retailerId, before, s, worlds);
    var events := before + DrainFrom(p, retailerId, s, worlds).events;
    RequestWindows(p, events, lo, hi);
    forall i | 0 <= i < |TraceOf(p, events).sent| - 1
      ensures TraceOf(p, events).sent[i + 1].at - TraceOf(p, events).sent[i].at >= p.minDelay
    {
      RequestSpacing(p, events, i);
    }
  }
}
