/** What the limiter's cheap counters mean for its whole call history: request windows, the
    reserved share, spacing, and the breaker's logs. */
module LimiterHistory {
  import opened Core
  import opened LimiterRules
  import opened Windows

  /** A caller asks, and sends only what was just admitted at the same instant; outcomes
      may come at any time. */
  datatype Event = Ask(kind: TaskKind, now: Time, send: bool) | Outcome(blocked: bool, now: Time)

  datatype Sent = Sent(kind: TaskKind, at: Time, hour: Time, day: Time)

  /** The limiter's state beside everything that ever happened to it. */
  datatype Trace = Trace(s: State, sent: seq<Sent>, outcomes: seq<bool>, trips: seq<Time>, outcomesAtTrip: nat)

  function Advance(p: Policy, t: Trace, e: Event): Trace
    requires p.minSample >= 1
  {
    match e
    case Ask(kind, now, send) =>
      var (r, denial) := CanAdmit(p, t.s, kind, now);
      if denial.Some? || !send then t.(s := r) else
        var s := RecordRequest(r, now);
        t.(s := s, sent := t.sent + [Sent(kind, now, s.hourStart.value, s.dayStart.value)])
    case Outcome(blocked, now) =>
      var s := RecordOutcome(p, t.s, blocked, now);
      var outcomes := t.outcomes + [blocked];
      if Trips(p, t.s, blocked, now) then Trace(s, t.sent, outcomes, t.trips + [now], |outcomes|)
      else t.(s := s, outcomes := outcomes)
  }

  function TraceOf(p: Policy, events: seq<Event>): Trace
    requires p.minSample >= 1
  {
    if events == [] then Trace(Fresh, [], [], [], 0)
    else Advance(p, TraceOf(p, events[..|events| - 1]), events[|events| - 1])
  }

  ghost predicate ClockForward(events: seq<Event>) {
    forall i, j :: 0 <= i < j < |events| ==> events[i].now <= events[j].now
  }

  // ---------------------------------------------------------------- requests

  function Hours(sent: seq<Sent>): (r: seq<Mark>)
    ensures |r| == |sent|
  {
    seq(|sent|, i requires 0 <= i < |sent| => Mark(sent[i].at, sent[i].hour))
  }

  function Days(sent: seq<Sent>): (r: seq<Mark>)
    ensures |r| == |sent|
  {
    seq(|sent|, i requires 0 <= i < |sent| => Mark(sent[i].at, sent[i].day))
  }

  /** The open bucket agrees with the marks: it is the latest one, it counts its own marks,
      and no bucket is over the cap. */
  ghost predicate BucketOk(ms: seq<Mark>, start: Option<Time>, count: nat, length: Time, cap: nat) {
    && Tumbling(ms, length) && Capped(ms, cap)
    && (start.None? ==> ms == [] && count == 0)
    && (start.Some? ==>
          && count == CountStart(ms, start.value)
          && forall i :: 0 <= i < |ms| ==> ms[i].start == start.value || ms[i].start + length <= start.value)
  }

  /** Every mark is at most `now`. */
  ghost predicate UpTo(ms: seq<Mark>, now: Time) {
    forall i :: 0 <= i < |ms| ==> ms[i].at <= now
  }

  lemma RollKeeps(ms: seq<Mark>, start: Option<Time>, count: nat, length: Time, cap: nat, now: Time)
    requires BucketOk(ms, start, count, length, cap) && length > 0 && UpTo(ms, now)
    ensures Stale(start, now, length) ==> BucketOk(ms, Some(now), 0, length, cap)
  {
    if Stale(start, now, length) {
      assert forall i :: 0 <= i < |ms| ==> ms[i].start + length <= now;
      UnusedBucket(ms, now);
    }
  }

  lemma MarkKeeps(ms: seq<Mark>, start: Time, count: nat, length: Time, cap: nat, now: Time)
    requires BucketOk(ms, Some(start), count, length, cap) && UpTo(ms, now)
    requires start <= now < start + length && count < cap
    ensures BucketOk(ms + [Mark(now, start)], Some(start), count + 1, length, cap)
  {
    Extend(ms, length, cap, Mark(now, start));
  }

  ghost predicate RequestsOk(p: Policy, t: Trace, now: Time) {
    && BucketOk(Hours(t.sent), t.s.hourStart, t.s.thisHour, HOUR, p.maxPerHour)
    && BucketOk(Days(t.sent), t.s.dayStart, t.s.thisDay, DAY, p.maxPerDay)
    && UpTo(Hours(t.sent), now) && UpTo(Days(t.sent), now)
    && (t.s.hourStart.Some? ==> t.s.hourStart.value <= now) && (t.s.dayStart.Some? ==> t.s.dayStart.value <= now)
    && (t.s.lastRequestAt == if t.sent == [] then None else Some(t.sent[|t.sent| - 1].at))
    && (forall i :: 0 <= i < |t.sent| - 1 ==> t.sent[i + 1].at - t.sent[i].at >= p.minDelay)
    && (forall b :: ShareOk(p, t.sent, b))
  }

  // ---------------------------------------------------------------- the reserved share

  /** The kinds that the reserve is for. */
  predicate Reserved(kind: TaskKind) {
    kind == ConfirmTask || kind == HotTask
  }

  function CountOther(sent: seq<Sent>, day: Time): nat {
    if sent == [] then 0 else
      var last := sent[|sent| - 1];
      CountOther(sent[..|sent| - 1], day) + (if last.day == day && !Reserved(last.kind) then 1 else 0)
  }

  /** At most ceil(max_per_day * (1 - reserved)) requests of the other kinds in a day bucket:
      n <= ceil(x) exactly when n - 1 < x. */
  predicate ShareOk(p: Policy, sent: seq<Sent>, day: Time) {
    var n := CountOther(sent, day);
    n == 0 || (n - 1) as real < NonReservedCap(p)
  }

  lemma {:induction false} OtherWithinDay(sent: seq<Sent>, day: Time)
    ensures CountOther(sent, day) <= CountStart(Days(sent), day)
  {
    if sent != [] {
      OtherWithinDay(sent[..|sent| - 1], day);
      assert Days(sent)[..|sent| - 1] == Days(sent[..|sent| - 1]);
    }
  }

  // ---------------------------------------------------------------- steps

  lemma RollRequests(p: Policy, t: Trace, before: Time, now: Time)
    requires RequestsOk(p, t, before) && before <= now
    ensures RequestsOk(p, t.(s := RollBuckets(t.s, now)), now)
    ensures var r := RollBuckets(t.s, now);
            r.hourStart.Some? && r.dayStart.Some? && r.hourStart.value <= now < r.hourStart.value + HOUR
            && r.dayStart.value <= now < r.dayStart.value + DAY
  {
    RollKeeps(Hours(t.sent), t.s.hourStart, t.s.thisHour, HOUR, p.maxPerHour, now);
    RollKeeps(Days(t.sent), t.s.dayStart, t.s.thisDay, DAY, p.maxPerDay, now);
  }

  lemma ShareKeeps(p: Policy, sent: seq<Sent>, next: Sent, count: nat)
    requires forall b :: ShareOk(p, sent, b)
    requires count == CountStart(Days(sent), next.day)
    requires ReserveEligible(next.kind) || count as real < NonReservedCap(p)
    ensures forall b :: ShareOk(p, sent + [next], b)
  {
    assert (sent + [next])[..|sent|] == sent;
    OtherWithinDay(sent, next.day);
    forall b ensures ShareOk(p, sent + [next], b) {
      assert ShareOk(p, sent, b);
      if b == next.day && !ReserveEligible(next.kind) {
        assert CountOther(sent, b) as real <= count as real;
      }
    }
  }

  lemma AdmittedMeans(p: Policy, s: State, kind: TaskKind, now: Time)
    requires LimiterRules.Verdict(p, s, kind, now).None?
    ensures s.thisHour < p.maxPerHour && s.thisDay < p.maxPerDay
    ensures ReserveEligible(kind) || (s.thisDay as real) < NonReservedCap(p)
    ensures s.lastRequestAt.Some? ==> now - s.lastRequestAt.value >= p.minDelay
  {
  }

  lemma SentMarks(sent: seq<Sent>, next: Sent)
    ensures Hours(sent + [next]) == Hours(sent) + [Mark(next.at, next.hour)]
    ensures Days(sent + [next]) == Days(sent) + [Mark(next.at, next.day)]
  {
  }

  lemma SendKeeps(p: Policy, t: Trace, kind: TaskKind, now: Time)
    requires RequestsOk(p, t, now) && LimiterRules.Verdict(p, t.s, kind, now).None?
    requires t.s.hourStart.Some? && t.s.dayStart.Some?
    requires t.s.hourStart.value <= now < t.s.hourStart.value + HOUR
    requires t.s.dayStart.value <= now < t.s.dayStart.value + DAY
    ensures var s := RecordRequest(t.s, now);
            s.hourStart == t.s.hourStart && s.dayStart == t.s.dayStart
            && RequestsOk(p, t.(s := s, sent := t.sent + [Sent(kind, now, s.hourStart.value, s.dayStart.value)]), now)
  {
    hide BucketOk, Verdict, Hours, Days, ShareOk;
    AdmittedMeans(p, t.s, kind, now);
    var h, d := t.s.hourStart.value, t.s.dayStart.value;
    var next := Sent(kind, now, h, d);
    BucketCounts(Days(t.sent), d, t.s.thisDay, DAY, p.maxPerDay);
    MarkKeeps(Hours(t.sent), h, t.s.thisHour, HOUR, p.maxPerHour, now);
    MarkKeeps(Days(t.sent), d, t.s.thisDay, DAY, p.maxPerDay, now);
    ShareKeeps(p, t.sent, next, t.s.thisDay);
    SentMarks(t.sent, next);
  }

  lemma BucketCounts(ms: seq<Mark>, start: Time, count: nat, length: Time, cap: nat)
    requires BucketOk(ms, Some(start), count, length, cap)
    ensures count == CountStart(ms, start)
  {
  }

  lemma AskRequests(p: Policy, t: Trace, kind: TaskKind, now: Time, send: bool, before: Time)
    requires PolicyOk(p) && RequestsOk(p, t, before) && before <= now
    ensures RequestsOk(p, Advance(p, t, Ask(kind, now, send)), now)
  {
    RollRequests(p, t, before, now);
    var r := RollBuckets(t.s, now);
    if LimiterRules.Verdict(p, r, kind, now).None? && send {
      SendKeeps(p, t.(s := r), kind, now);
    }
  }

  /** An outcome touches no request counter. */
  lemma OutcomeCounters(p: Policy, s: State, blocked: bool, now: Time)
    requires PolicyOk(p)
    ensures var u := RecordOutcome(p, s, blocked, now);
            && u.lastRequestAt == s.lastRequestAt && u.thisHour == s.thisHour && u.thisDay == s.thisDay
            && u.hourStart == s.hourStart && u.dayStart == s.dayStart
  {
    hide ShouldTrip, Within48h, Push;
  }

  lemma OutcomeRequests(p: Policy, t: Trace, blocked: bool, now: Time, before: Time)
    requires PolicyOk(p) && RequestsOk(p, t, before) && before <= now
    ensures RequestsOk(p, Advance(p, t, Outcome(blocked, now)), now)
  {
    hide RequestsOk, RecordOutcome, Trips;
    var u := Advance(p, t, Outcome(blocked, now));
    OutcomeCounters(p, t.s, blocked, now);
    SameCounters(p, t, u, before, now);
  }

  lemma SameCounters(p: Policy, t: Trace, u: Trace, before: Time, now: Time)
    requires RequestsOk(p, t, before) && before <= now && u.sent == t.sent
    requires u.s.lastRequestAt == t.s.lastRequestAt && u.s.thisHour == t.s.thisHour && u.s.thisDay == t.s.thisDay
    requires u.s.hourStart == t.s.hourStart && u.s.dayStart == t.s.dayStart
    ensures RequestsOk(p, u, now)
  {
  }

  lemma StepRequests(p: Policy, t: Trace, e: Event, before: Time)
    requires PolicyOk(p) && RequestsOk(p, t, before) && before <= e.now
    ensures RequestsOk(p, Advance(p, t, e), e.now)
  {
    match e
    case Ask(kind, now, send) => AskRequests(p, t, kind, now, send, before);
    case Outcome(blocked, now) => OutcomeRequests(p, t, blocked, now, before);
  }

  lemma {:induction false} ReplayRequests(p: Policy, events: seq<Event>, now: Time)
    requires PolicyOk(p) && ClockForward(events) && (events != [] ==> now >= events[|events| - 1].now)
    ensures RequestsOk(p, TraceOf(p, events), now)
  {
    hide Advance, RequestsOk;
    if events == [] {
      NoRequests(p, now);
    } else {
      var n := |events| - 1;
      ReplayRequests(p, events[..n], events[n].now);
      StepRequests(p, TraceOf(p, events[..n]), events[n], events[n].now);
      LaterRequests(p, TraceOf(p, events), events[n].now, now);
    }
  }

  lemma NoRequests(p: Policy, now: Time)
    ensures RequestsOk(p, Trace(Fresh, [], [], [], 0), now)
  {
    assert forall b :: ShareOk(p, [], b);
  }

  lemma LaterRequests(p: Policy, t: Trace, before: Time, now: Time)
    requires RequestsOk(p, t, before) && before <= now
    ensures RequestsOk(p, t, now)
  {
    SameCounters(p, t, t, before, now);
  }

  /** Any window of an hour holds at most twice the hourly cap, and any window of a day at
      most twice the daily cap, although only tumbling buckets are kept. */
  lemma RequestWindows(p: Policy, events: seq<Event>, lo: Time, hi: Time)
    requires PolicyOk(p) && ClockForward(events)
    ensures var sent := TraceOf(p, events).sent;
            && (hi - lo <= HOUR ==> CountBetween(Hours(sent), lo, hi) <= 2 * p.maxPerHour)
            && (hi - lo <= DAY ==> CountBetween(Days(sent), lo, hi) <= 2 * p.maxPerDay)
  {
    ReplayRequests(p, events, if events == [] then 0 else events[|events| - 1].now);
    var sent := TraceOf(p, events).sent;
    if hi - lo <= HOUR { WindowBound(Hours(sent), HOUR, p.maxPerHour, lo, hi); }
    if hi - lo <= DAY { WindowBound(Days(sent), DAY, p.maxPerDay, lo, hi); }
  }

  /** Consecutive requests are at least the minimum delay apart. */
  lemma RequestSpacing(p: Policy, events: seq<Event>, i: nat)
    requires PolicyOk(p) && ClockForward(events) && i + 1 < |TraceOf(p, events).sent|
    ensures var sent := TraceOf(p, events).sent; sent[i + 1].at - sent[i].at >= p.minDelay
  {
    ReplayRequests(p, events, if events == [] then 0 else events[|events| - 1].now);
  }

  function CountEligible(sent: seq<Sent>, day: Time): nat {
    if sent == [] then 0 else
      var last := sent[|sent| - 1];
      CountEligible(sent[..|sent| - 1], day) + (if last.day == day && Reserved(last.kind) then 1 else 0)
  }

  lemma {:induction false} EligibleAndOther(sent: seq<Sent>, day: Time)
    ensures CountStart(Days(sent), day) == CountEligible(sent, day) + CountOther(sent, day)
  {
    if sent != [] {
      EligibleAndOther(sent[..|sent| - 1], day);
      assert Days(sent)[..|sent| - 1] == Days(sent[..|sent| - 1]);
    }
  }

  /** The reserve holds whatever the interleaving: in each day bucket the other kinds stay
      within their share, so CONFIRM and HOT are refused for the daily cap only after they
      themselves have used up the reserve (less the part of one request that rounding takes)
      or the whole day. */
  lemma ReserveHolds(p: Policy, events: seq<Event>, kind: TaskKind, now: Time)
    requires PolicyOk(p) && ClockForward(events) && (events != [] ==> now >= events[|events| - 1].now)
    requires kind == ConfirmTask || kind == HotTask
    ensures var sent := TraceOf(p, events).sent;
            && (forall b :: ShareOk(p, sent, b))
            && var (r, denial) := CanAdmit(p, TraceOf(p, events).s, kind, now);
               denial == Some(DailyCap) ==>
                 var used := CountEligible(sent, r.dayStart.value);
                 used >= p.maxPerDay || used as real > p.maxPerDay as real * p.reserved - 1.0
  {
    hide TraceOf, RequestsOk, RollBuckets, NonReservedCap, ShareOk, CountEligible, CountOther;
    var t := TraceOf(p, events);
    ReplayRequests(p, events, now);
    RollRequests(p, t, now, now);
    var (r, denial) := CanAdmit(p, t.s, kind, now);
    DayMeans(p, t.(s := r), now);
    if denial == Some(DailyCap) {
      EligibleAndOther(t.sent, r.dayStart.value);
      ShareMeans(p, t.sent, r.dayStart.value);
      ReserveArithmetic(p, CountEligible(t.sent, r.dayStart.value), CountOther(t.sent, r.dayStart.value));
    }
  }

  lemma DayMeans(p: Policy, t: Trace, now: Time)
    requires RequestsOk(p, t, now)
    ensures forall b :: ShareOk(p, t.sent, b)
    ensures t.s.dayStart.Some? ==> t.s.thisDay == CountStart(Days(t.sent), t.s.dayStart.value)
  {
  }

  lemma ShareMeans(p: Policy, sent: seq<Sent>, day: Time)
    requires ShareOk(p, sent, day)
    ensures CountOther(sent, day) == 0 || (CountOther(sent, day) - 1) as real < NonReservedCap(p)
  {
  }

  lemma ReserveArithmetic(p: Policy, used: nat, other: nat)
    requires used + other >= p.maxPerDay && (other == 0 || (other - 1) as real < NonReservedCap(p))
    ensures used >= p.maxPerDay || used as real > p.maxPerDay as real * p.reserved - 1.0
  {
    var m := p.maxPerDay as real;
    assert m * (1.0 - p.reserved) == m - m * p.reserved;
    assert used as real + other as real >= m;
    assert other > 0 ==> other as real < m * (1.0 - p.reserved) + 1.0;
  }
}
