/** Rate limiting and the block breaker (fpt/scheduler/limiter.py) as functions on the
    counters of one retailer. */
module LimiterRules {
  import opened Core

  /** The fractions of reserved_share summed. A sample of zero would divide by zero at the
      first outcome, so a policy has at least one. */
  datatype Policy = Policy(
    minDelay: Time, jitter: Time,
    maxPerHour: nat, maxPerDay: nat, reserved: real,
    consecutiveBlocks: int, blockRate: real, minSample: nat,
    cooldown: Time, disableAfter: int)

  ghost predicate PolicyOk(p: Policy) {
    p.minDelay >= 0 && p.jitter >= 0 && p.minSample >= 1 && p.cooldown >= 0
  }

  datatype State = State(
    lastRequestAt: Option<Time>,
    thisHour: nat, thisDay: nat, hourStart: Option<Time>, dayStart: Option<Time>,
    consecutive: nat, recent: seq<bool>,
    openUntil: Option<Time>, trips: seq<Time>, disabled: bool)

  const Fresh: State := State(None, 0, 0, None, None, 0, [], None, [], false)

  datatype Denial = IsDisabled | BreakerOpen | DelayNotElapsed | HourlyCap | DailyCap

  predicate ReserveEligible(kind: TaskKind) {
    kind == ConfirmTask || kind == HotTask
  }

  predicate Stale(start: Option<Time>, now: Time, length: Time) {
    start.None? || now - start.value >= length
  }

  function RollBuckets(s: State, now: Time): State {
    var h := if Stale(s.hourStart, now, HOUR) then s.(hourStart := Some(now), thisHour := 0) else s;
    if Stale(h.dayStart, now, DAY) then h.(dayStart := Some(now), thisDay := 0) else h
  }

  /** max_requests_per_day * (1 - sum of reserved shares). */
  function NonReservedCap(p: Policy): real {
    p.maxPerDay as real * (1.0 - p.reserved)
  }

  /** The verdict on rolled buckets. */
  function Verdict(p: Policy, s: State, kind: TaskKind, now: Time): Option<Denial> {
    if s.disabled then Some(IsDisabled)
    else if s.openUntil.Some? && now < s.openUntil.value then Some(BreakerOpen)
    else if s.lastRequestAt.Some? && now - s.lastRequestAt.value < p.minDelay then Some(DelayNotElapsed)
    else if s.thisHour >= p.maxPerHour then Some(HourlyCap)
    else if !ReserveEligible(kind) && s.thisDay as real >= NonReservedCap(p) then Some(DailyCap)
    else if s.thisDay >= p.maxPerDay then Some(DailyCap)
    else None
  }

  function CanAdmit(p: Policy, s: State, kind: TaskKind, now: Time): (State, Option<Denial>) {
    var r := RollBuckets(s, now);
    (r, Verdict(p, r, kind, now))
  }

  function RecordRequest(s: State, now: Time): State {
    var r := RollBuckets(s, now);
    r.(lastRequestAt := Some(now), thisHour := r.thisHour + 1, thisDay := r.thisDay + 1)
  }

  function CountTrue(s: seq<bool>): nat {
    if s == [] then 0 else (if s[0] then 1 else 0) + CountTrue(s[1..])
  }

  /** Append, then drop the oldest once the window is over-full. */
  function Push(recent: seq<bool>, blocked: bool, size: nat): seq<bool> {
    var r := recent + [blocked];
    if |r| > size then r[1..] else r
  }

  predicate ShouldTrip(p: Policy, consecutive: nat, recent: seq<bool>)
    requires |recent| >= p.minSample ==> recent != []
  {
    || consecutive >= p.consecutiveBlocks
    || (|recent| >= p.minSample && CountTrue(recent) as real / |recent| as real > p.blockRate)
  }

  function Within48h(trips: seq<Time>, now: Time): seq<Time> {
    if trips == [] then [] else (if now - trips[0] < 48 * HOUR then [trips[0]] else []) + Within48h(trips[1..], now)
  }

  function Trip(p: Policy, s: State, now: Time): State {
    var trips := Within48h(s.trips, now) + [now];
    s.(openUntil := Some(now + p.cooldown), trips := trips, consecutive := 0,
       disabled := s.disabled || |trips| >= p.disableAfter)
  }

  predicate Trips(p: Policy, s: State, blocked: bool, now: Time)
    requires p.minSample >= 1
  {
    && ShouldTrip(p, if blocked then s.consecutive + 1 else 0, Push(s.recent, blocked, p.minSample))
    && (s.openUntil.None? || now >= s.openUntil.value)
  }

  function RecordOutcome(p: Policy, s: State, blocked: bool, now: Time): State
    requires p.minSample >= 1
  {
    var consecutive := if blocked then s.consecutive + 1 else 0;
    var counted := s.(consecutive := consecutive, recent := Push(s.recent, blocked, p.minSample));
    if Trips(p, s, blocked, now) then Trip(p, counted, now) else counted
  }
}
