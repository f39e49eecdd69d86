/** When the limiter admits a request, said of everything that happened before. */
module Admission {
  import opened Core
  import opened LimiterRules
  import opened LimiterHistory
  import opened BreakerHistory
  import opened Windows

  /** The limiter's counters are those of the history, in the buckets it is in. */
  lemma CountersAgree(p: Policy, events: seq<Event>, now: Time)
    requires PolicyOk(p) && ClockForward(events) && (events != [] ==> now >= events[|events| - 1].now)
    ensures var t := TraceOf(p, events); var r := RollBuckets(t.s, now);
            && r.hourStart.Some? && r.dayStart.Some?
            && r.hourStart.value <= now < r.hourStart.value + HOUR && r.dayStart.value <= now < r.dayStart.value + DAY
            && r.thisHour == CountStart(Hours(t.sent), r.hourStart.value)
            && r.thisDay == CountStart(Days(t.sent), r.dayStart.value)
            && r.lastRequestAt == (if t.sent == [] then None else Some(t.sent[|t.sent| - 1].at))
            && r.openUntil == (if t.trips == [] then None else Some(t.trips[|t.trips| - 1] + p.cooldown))
            && (r.disabled <==> SpanClosed(t.trips, p.disableAfter))
  {
    hide TraceOf, RequestsOk, BreakerOk;
    var t := TraceOf(p, events);
    ReplayRequests(p, events, now);
    ReplayBreaker(p, events, now);
    RollRequests(p, t, now, now);
    RequestsMean(p, t.(s := RollBuckets(t.s, now)), now);
    BreakerMeans(p, t, now);
  }

  lemma RequestsMean(p: Policy, t: Trace, now: Time)
    requires RequestsOk(p, t, now) && t.s.hourStart.Some? && t.s.dayStart.Some?
    ensures t.s.thisHour == CountStart(Hours(t.sent), t.s.hourStart.value)
    ensures t.s.thisDay == CountStart(Days(t.sent), t.s.dayStart.value)
    ensures t.s.lastRequestAt == if t.sent == [] then None else Some(t.sent[|t.sent| - 1].at)
  {
  }

  lemma BreakerMeans(p: Policy, t: Trace, now: Time)
    requires BreakerOk(p, t, now)
    ensures t.s.openUntil == (if t.trips == [] then None else Some(t.trips[|t.trips| - 1] + p.cooldown))
    ensures t.s.disabled <==> SpanClosed(t.trips, p.disableAfter)
  {
  }

  /** The verdict on a request, in order: disabled for good, cooling down after a trip, too
      soon after the last request, the hour's cap, and the day's cap, of which the kinds other
      than CONFIRM and HOT may use only their share. With none of these it is admitted. */
  lemma AdmitsExactly(p: Policy, events: seq<Event>, kind: TaskKind, now: Time)
    requires PolicyOk(p) && ClockForward(events) && (events != [] ==> now >= events[|events| - 1].now)
    ensures var t := TraceOf(p, events); var (r, denial) := CanAdmit(p, t.s, kind, now);
            var hour, day := CountStart(Hours(t.sent), r.hourStart.value), CountStart(Days(t.sent), r.dayStart.value);
            denial ==
              if SpanClosed(t.trips, p.disableAfter) then Some(IsDisabled)
              else if t.trips != [] && now - t.trips[|t.trips| - 1] < p.cooldown then Some(BreakerOpen)
              else if t.sent != [] && now - t.sent[|t.sent| - 1].at < p.minDelay then Some(DelayNotElapsed)
              else if hour >= p.maxPerHour then Some(HourlyCap)
              else if day >= p.maxPerDay then Some(DailyCap)
              else if kind != ConfirmTask && kind != HotTask && day as real >= p.maxPerDay as real * (1.0 - p.reserved)
              then Some(DailyCap)
              else None
  {
    hide TraceOf, CountStart, SpanClosed, RollBuckets;
    CountersAgree(p, events, now);
  }

  /** The block rate counts the blocked ones. */
  lemma {:induction false} BlockedExactly(outcomes: seq<bool>)
    ensures CountTrue(outcomes) == multiset(outcomes)[true]
  {
    if outcomes != [] {
      BlockedExactly(outcomes[1..]);
      assert outcomes == [outcomes[0]] + outcomes[1..];
      assert multiset(outcomes) == multiset([outcomes[0]]) + multiset(outcomes[1..]);
    }
  }

  lemma {:induction false} CountSame(ms: seq<Mark>, start: int, length: int)
    requires forall k :: 0 <= k < |ms| ==> (ms[k].start == start <==> start <= ms[k].at < start + length)
    ensures CountStart(ms, start) == CountBetween(ms, start, start + length)
  {
    if ms != [] { CountSame(ms[..|ms| - 1], start, length); }
  }

  /** A bucket that counted something counted exactly what lies in it. */
  lemma BucketsExactly(ms: seq<Mark>, e: nat, length: int)
    requires Tumbling(ms, length) && e < |ms|
    ensures CountStart(ms, ms[e].start) == CountBetween(ms, ms[e].start, ms[e].start + length)
  {
    forall k | 0 <= k < |ms| ensures ms[k].start == ms[e].start <==> ms[e].start <= ms[k].at < ms[e].start + length {
      if k < e { assert ms[k].start == ms[e].start || ms[k].start + length <= ms[e].start; }
    }
    CountSame(ms, ms[e].start, length);
  }
}
