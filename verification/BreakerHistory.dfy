/** The block breaker against the full history: the bounded outcome window, the running
    block count and the pruned trip log all say what every outcome and every trip so far
    would say. */
module BreakerHistory {
  import opened Core
  import opened LimiterRules
  import opened LimiterHistory

  /** The last n of s, or all of it. */
  function Last<T>(s: seq<T>, n: nat): seq<T> {
    if |s| <= n then s else s[|s| - n..]
  }

  function TrailingBlocked(outcomes: seq<bool>): nat {
    if outcomes == [] || !outcomes[|outcomes| - 1] then 0 else TrailingBlocked(outcomes[..|outcomes| - 1]) + 1
  }

  ghost predicate Spaced(trips: seq<Time>, gap: Time) {
    forall i, j :: 0 <= i < j < |trips| ==> trips[j] - trips[i] >= gap
  }

  /** The trip at i closes a span of under 48 hours holding `needed` trips. */
  predicate ClosesSpan(trips: seq<Time>, i: nat, needed: int)
    requires i < |trips|
  {
    var k := if needed < 1 then 1 else needed;
    i + 1 >= k && trips[i] - trips[i + 1 - k] < 48 * HOUR
  }

  ghost predicate SpanClosed(trips: seq<Time>, needed: int) {
    exists i :: 0 <= i < |trips| && ClosesSpan(trips, i, needed)
  }

  /** The outcome window and the running count, as functions of all outcomes. */
  ghost predicate CountsOk(size: nat, recent: seq<bool>, consecutive: nat, outcomes: seq<bool>, outcomesAtTrip: nat) {
    && recent == Last(outcomes, size)
    && outcomesAtTrip <= |outcomes|
    && consecutive == TrailingBlocked(outcomes[outcomesAtTrip..])
  }

  /** The pruned log, the open breaker and the switch, as functions of all trips. */
  ghost predicate LogOk(p: Policy, openUntil: Option<Time>, kept: seq<Time>, disabled: bool, trips: seq<Time>,
                        now: Time) {
    && (forall i :: 0 <= i < |trips| ==> trips[i] <= now)
    && Spaced(trips, p.cooldown)
    && openUntil == (if trips == [] then None else Some(trips[|trips| - 1] + p.cooldown))
    && kept == (if trips == [] then [] else Within48h(trips, trips[|trips| - 1]))
    && (disabled <==> SpanClosed(trips, p.disableAfter))
  }

  /** Every cheap field, as a function of the whole history. */
  ghost predicate BreakerOk(p: Policy, t: Trace, now: Time) {
    && CountsOk(p.minSample, t.s.recent, t.s.consecutive, t.outcomes, t.outcomesAtTrip)
    && LogOk(p, t.s.openUntil, t.s.trips, t.s.disabled, t.trips, now)
  }

  // ---------------------------------------------------------------- the pruned trip log

  lemma {:induction false} WithinAppend(a: seq<Time>, b: seq<Time>, now: Time)
    ensures Within48h(a + b, now) == Within48h(a, now) + Within48h(b, now)
  {
    if a == [] {
      assert a + b == b;
    } else {
      assert (a + b)[1..] == a[1..] + b;
      WithinAppend(a[1..], b, now);
    }
  }

  /** Pruning at an earlier instant loses nothing a later pruning would keep. */
  lemma {:induction false} PruneTwice(trips: seq<Time>, earlier: Time, later: Time)
    requires earlier <= later
    ensures Within48h(Within48h(trips, earlier), later) == Within48h(trips, later)
  {
    if trips != [] {
      var head := if earlier - trips[0] < 48 * HOUR then [trips[0]] else [];
      WithinAppend(head, Within48h(trips[1..], earlier), later);
      PruneTwice(trips[1..], earlier, later);
      assert Within48h([], later) == [];
      assert Within48h(head, later) == if later - trips[0] < 48 * HOUR then [trips[0]] else [];
    }
  }

  lemma {:induction false} AllWithin(trips: seq<Time>, now: Time)
    requires forall i :: 0 <= i < |trips| ==> now - trips[i] < 48 * HOUR
    ensures Within48h(trips, now) == trips
  {
    if trips != [] { AllWithin(trips[1..], now); }
  }

  lemma {:induction false} NotMore(trips: seq<Time>, now: Time)
    ensures |Within48h(trips, now)| <= |trips|
  {
    if trips != [] { NotMore(trips[1..], now); }
  }

  /** On an ordered log, k trips are kept exactly when the k-th last one is recent. */
  lemma {:induction false} KeptExactly(trips: seq<Time>, now: Time, k: nat)
    requires Spaced(trips, 0) && 1 <= k <= |trips|
    ensures |Within48h(trips, now)| >= k <==> now - trips[|trips| - k] < 48 * HOUR
  {
    if now - trips[0] < 48 * HOUR {
      assert forall i :: 1 <= i < |trips| ==> trips[i] - trips[0] >= 0;
      AllWithin(trips, now);
    } else if k == |trips| {
      NotMore(trips[1..], now);
    } else {
      KeptExactly(trips[1..], now, k);
    }
  }

  lemma ClosesExactly(trips: seq<Time>, now: Time, needed: int)
    requires Spaced(trips + [now], 0)
    ensures |Within48h(trips + [now], now)| >= needed <==> ClosesSpan(trips + [now], |trips|, needed)
  {
    var all := trips + [now];
    WithinAppend(trips, [now], now);
    NotMore(all, now);
    if 1 <= needed <= |all| { KeptExactly(all, now, needed); }
  }

  /** One more trip closes a span, or some earlier one did. */
  lemma SpanGrows(trips: seq<Time>, now: Time, needed: int)
    ensures SpanClosed(trips + [now], needed) <==>
              (SpanClosed(trips, needed) || ClosesSpan(trips + [now], |trips|, needed))
  {
    var all := trips + [now];
    assert forall i {:trigger ClosesSpan(trips, i, needed)} {:trigger ClosesSpan(all, i, needed)} ::
        0 <= i < |trips| ==> (ClosesSpan(all, i, needed) <==> ClosesSpan(trips, i, needed));
    if SpanClosed(trips, needed) {
      var i :| 0 <= i < |trips| && ClosesSpan(trips, i, needed);
      assert ClosesSpan(all, i, needed);
    }
  }

  // ---------------------------------------------------------------- one step

  lemma PushIsLast(outcomes: seq<bool>, blocked: bool, n: nat)
    requires n >= 1
    ensures Push(Last(outcomes, n), blocked, n) == Last(outcomes + [blocked], n)
  {
  }

  lemma TrailingGrows(outcomes: seq<bool>, from: nat, blocked: bool)
    requires from <= |outcomes|
    ensures TrailingBlocked((outcomes + [blocked])[from..])
         == if blocked then TrailingBlocked(outcomes[from..]) + 1 else 0
  {
    var tail := (outcomes + [blocked])[from..];
    assert tail == outcomes[from..] + [blocked];
    assert tail[..|tail| - 1] == outcomes[from..];
  }

  /** When the breaker trips, said of the full history alone: five (or as configured) blocked
      outcomes in a row since the last trip, or too high a share of the last min_sample
      outcomes, and the last trip's cooldown is over. */
  predicate TripsOnHistory(p: Policy, outcomes: seq<bool>, outcomesAtTrip: nat, trips: seq<Time>, now: Time)
    requires p.minSample >= 1 && outcomesAtTrip <= |outcomes|
  {
    && (|| TrailingBlocked(outcomes[outcomesAtTrip..]) >= p.consecutiveBlocks
        || (|outcomes| >= p.minSample
            && CountTrue(outcomes[|outcomes| - p.minSample..]) as real / p.minSample as real > p.blockRate))
    && (trips == [] || now - trips[|trips| - 1] >= p.cooldown)
  }

  lemma TripsExactly(p: Policy, t: Trace, blocked: bool, now: Time, before: Time)
    requires PolicyOk(p) && BreakerOk(p, t, before) && before <= now
    ensures Trips(p, t.s, blocked, now) <==> TripsOnHistory(p, t.outcomes + [blocked], t.outcomesAtTrip, t.trips, now)
  {
    PushIsLast(t.outcomes, blocked, p.minSample);
    TrailingGrows(t.outcomes, t.outcomesAtTrip, blocked);
    var outcomes := t.outcomes + [blocked];
    if |outcomes| >= p.minSample {
      assert Last(outcomes, p.minSample) == outcomes[|outcomes| - p.minSample..];
    }
  }

  lemma SpacedGrows(trips: seq<Time>, now: Time, gap: Time)
    requires Spaced(trips, gap) && gap >= 0 && (trips != [] ==> now - trips[|trips| - 1] >= gap)
    ensures Spaced(trips + [now], gap) && Spaced(trips + [now], 0)
  {
    var all := trips + [now];
    forall i, j | 0 <= i < j < |all| ensures all[j] - all[i] >= gap {
      if j == |trips| && i < |trips| - 1 {
        assert trips[|trips| - 1] - trips[i] >= gap;
      }
    }
  }

  /** The log after a trip, pruned from the pruned log, is the full log pruned. */
  lemma TripPrunes(trips: seq<Time>, kept: seq<Time>, now: Time)
    requires kept == (if trips == [] then [] else Within48h(trips, trips[|trips| - 1]))
    requires trips != [] ==> trips[|trips| - 1] <= now
    ensures Within48h(kept, now) + [now] == Within48h(trips + [now], now)
  {
    if trips != [] { PruneTwice(trips, trips[|trips| - 1], now); }
    WithinAppend(trips, [now], now);
    OneWithin(now);
  }

  lemma OneWithin(now: Time)
    ensures Within48h([now], now) == [now]
  {
    AllWithin([now], now);
  }

  lemma QuietOutcome(p: Policy, t: Trace, blocked: bool, now: Time, before: Time)
    requires PolicyOk(p) && BreakerOk(p, t, before) && before <= now && !Trips(p, t.s, blocked, now)
    ensures BreakerOk(p, Advance(p, t, Outcome(blocked, now)), now)
  {
    PushIsLast(t.outcomes, blocked, p.minSample);
    TrailingGrows(t.outcomes, t.outcomesAtTrip, blocked);
    LaterLog(p, t, before, now);
  }

  lemma TripGrowsLog(p: Policy, openUntil: Option<Time>, kept: seq<Time>, disabled: bool, trips: seq<Time>, now: Time,
                     before: Time)
    requires PolicyOk(p) && LogOk(p, openUntil, kept, disabled, trips, before) && before <= now
    requires openUntil.None? || now >= openUntil.value
    ensures var log := Within48h(kept, now) + [now];
            LogOk(p, Some(now + p.cooldown), log, disabled || |log| >= p.disableAfter, trips + [now], now)
  {
    var all := trips + [now];
    SpacedGrows(trips, now, p.cooldown);
    TripPrunes(trips, kept, now);
    ClosesExactly(trips, now, p.disableAfter);
    SpanGrows(trips, now, p.disableAfter);
    assert all[|all| - 1] == now;
  }

  lemma TrippingOutcome(p: Policy, t: Trace, blocked: bool, now: Time, before: Time)
    requires PolicyOk(p) && BreakerOk(p, t, before) && before <= now && Trips(p, t.s, blocked, now)
    ensures BreakerOk(p, Advance(p, t, Outcome(blocked, now)), now)
  {
    hide ShouldTrip, Within48h, LogOk;
    PushIsLast(t.outcomes, blocked, p.minSample);
    TripGrowsLog(p, t.s.openUntil, t.s.trips, t.s.disabled, t.trips, now, before);
    var outcomes := t.outcomes + [blocked];
    assert outcomes[|outcomes|..] == [];
  }

  lemma AskKeepsBreaker(p: Policy, t: Trace, kind: TaskKind, now: Time, send: bool, before: Time)
    requires PolicyOk(p) && BreakerOk(p, t, before) && before <= now
    ensures BreakerOk(p, Advance(p, t, Ask(kind, now, send)), now)
  {
    hide LogOk, CountsOk, LimiterRules.Verdict;
    LaterLog(p, t, before, now);
    var u := Advance(p, t, Ask(kind, now, send));
    assert u.outcomes == t.outcomes && u.trips == t.trips && u.outcomesAtTrip == t.outcomesAtTrip;
    assert u.s.recent == t.s.recent && u.s.consecutive == t.s.consecutive;
    assert u.s.trips == t.s.trips && u.s.openUntil == t.s.openUntil && u.s.disabled == t.s.disabled;
  }

  lemma {:induction false} ReplayBreaker(p: Policy, events: seq<Event>, now: Time)
    requires PolicyOk(p) && ClockForward(events) && (events != [] ==> now >= events[|events| - 1].now)
    ensures BreakerOk(p, TraceOf(p, events), now)
  {
    if events != [] {
      var e := events[|events| - 1];
      var rest := events[..|events| - 1];
      ReplayBreaker(p, rest, e.now);
      match e {
        case Ask(kind, at, send) => AskKeepsBreaker(p, TraceOf(p, rest), kind, at, send, at);
        case Outcome(blocked, at) =>
          if Trips(p, TraceOf(p, rest).s, blocked, at) {
            TrippingOutcome(p, TraceOf(p, rest), blocked, at, at);
          } else {
            QuietOutcome(p, TraceOf(p, rest), blocked, at, at);
          }
      }
      LaterLog(p, TraceOf(p, events), e.now, now);
    }
  }

  lemma LaterLog(p: Policy, t: Trace, now: Time, later: Time)
    requires BreakerOk(p, t, now) && now <= later
    ensures BreakerOk(p, t, later)
  {
  }

  // ---------------------------------------------------------------- whole histories

  /** The logs agree with the history at the end of every call sequence: the outcome window
      and the running count with all outcomes; the open breaker, the switch and the pruned log
      with all trips. What the pruned log keeps at any later instant is what all trips would. */
  lemma LogsAgree(p: Policy, events: seq<Event>)
    requires PolicyOk(p) && ClockForward(events)
    ensures var t := TraceOf(p, events);
            && t.s.recent == Last(t.outcomes, p.minSample)
            && t.outcomesAtTrip <= |t.outcomes|
            && t.s.consecutive == TrailingBlocked(t.outcomes[t.outcomesAtTrip..])
            && Spaced(t.trips, p.cooldown)
            && t.s.openUntil == (if t.trips == [] then None else Some(t.trips[|t.trips| - 1] + p.cooldown))
            && (forall later :: (t.trips != [] ==> t.trips[|t.trips| - 1] <= later) ==>
                  Within48h(t.s.trips, later) == Within48h(t.trips, later))
            && (t.s.disabled <==> SpanClosed(t.trips, p.disableAfter))
  {
    hide TraceOf;
    ReplayBreaker(p, events, if events == [] then 0 else events[|events| - 1].now);
    var t := TraceOf(p, events);
    forall later | t.trips != [] ==> t.trips[|t.trips| - 1] <= later
      ensures Within48h(t.s.trips, later) == Within48h(t.trips, later)
    {
      if t.trips != [] { PruneTwice(t.trips, t.trips[|t.trips| - 1], later); }
    }
  }

  lemma DisabledStep(p: Policy, t: Trace, e: Event)
    requires PolicyOk(p) && t.s.disabled
    ensures Advance(p, t, e).s.disabled && Advance(p, t, e).sent == t.sent
  {
    hide ShouldTrip, Within48h, Push;
  }

  lemma {:induction false} DisabledStays(p: Policy, events: seq<Event>, more: seq<Event>)
    requires PolicyOk(p) && TraceOf(p, events).s.disabled
    ensures TraceOf(p, events + more).s.disabled && TraceOf(p, events + more).sent == TraceOf(p, events).sent
  {
    hide Advance;
    if more == [] {
      assert events + more == events;
    } else {
      var n := |more| - 1;
      assert (events + more)[..|events + more| - 1] == events + more[..n];
      DisabledStays(p, events, more[..n]);
      DisabledStep(p, TraceOf(p, events + more[..n]), more[n]);
    }
  }

  /** Disabling is for good: nothing is admitted and nothing is sent afterwards. */
  lemma DisabledIsFinal(p: Policy, events: seq<Event>, more: seq<Event>, kind: TaskKind, now: Time)
    requires PolicyOk(p) && TraceOf(p, events).s.disabled
    ensures CanAdmit(p, TraceOf(p, events + more).s, kind, now).1 == Some(IsDisabled)
    ensures TraceOf(p, events + more).sent == TraceOf(p, events).sent
  {
    DisabledStays(p, events, more);
  }

  /** No request goes out inside any trip's cooldown. */
  ghost predicate CoolingRespected(p: Policy, t: Trace) {
    forall i, j :: 0 <= i < |t.trips| && 0 <= j < |t.sent| ==> !(t.trips[i] < t.sent[j].at < t.trips[i] + p.cooldown)
  }

  lemma {:induction false} CoolingHolds(p: Policy, events: seq<Event>)
    requires PolicyOk(p) && ClockForward(events)
    ensures CoolingRespected(p, TraceOf(p, events))
  {
    hide Advance, BreakerOk, RequestsOk;
    if events != [] {
      var e := events[|events| - 1];
      var rest := events[..|events| - 1];
      var t := TraceOf(p, rest);
      CoolingHolds(p, rest);
      ReplayBreaker(p, rest, e.now);
      ReplayRequests(p, rest, e.now);
      SentBefore(p, t, e.now);
      AdvanceKeepsCooling(p, t, e);
    }
  }

  lemma SentBefore(p: Policy, t: Trace, now: Time)
    requires RequestsOk(p, t, now)
    ensures forall j :: 0 <= j < |t.sent| ==> t.sent[j].at <= now
  {
    assert forall j :: 0 <= j < |t.sent| ==> Hours(t.sent)[j].at == t.sent[j].at;
  }

  lemma AdvanceKeepsCooling(p: Policy, t: Trace, e: Event)
    requires PolicyOk(p) && CoolingRespected(p, t) && BreakerOk(p, t, e.now)
    requires forall j :: 0 <= j < |t.sent| ==> t.sent[j].at <= e.now
    ensures CoolingRespected(p, Advance(p, t, e))
  {
    if e.Ask? && CanAdmit(p, t.s, e.kind, e.now).1.None? {
      SendOutsideCooling(p, t, e.kind, e.now);
    }
  }

  lemma SendOutsideCooling(p: Policy, t: Trace, kind: TaskKind, now: Time)
    requires PolicyOk(p) && BreakerOk(p, t, now) && CanAdmit(p, t.s, kind, now).1.None?
    ensures forall i :: 0 <= i < |t.trips| ==> now >= t.trips[i] + p.cooldown
  {
    forall i | 0 <= i < |t.trips| ensures now >= t.trips[i] + p.cooldown {
      if i < |t.trips| - 1 { assert t.trips[|t.trips| - 1] - t.trips[i] >= p.cooldown; }
    }
  }
}
