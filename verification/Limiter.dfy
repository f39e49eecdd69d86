/** RetailerLimiter: the counters of one retailer, updated in place. */
module Limiter {
  import opened Core
  import opened LimiterRules

  class RetailerLimiter {
    const policy: Policy
    var lastRequestAt: Option<Time>
    var requestsThisHour: nat
    var requestsThisDay: nat
    var hourBucketStart: Option<Time>
    var dayBucketStart: Option<Time>
    var consecutiveBlocks: nat
    var recentOutcomes: seq<bool>
    var breakerOpenUntil: Option<Time>
    var tripsIn48h: seq<Time>
    var disabled: bool

    function State(): State
      reads this
    {
      LimiterRules.State(lastRequestAt, requestsThisHour, requestsThisDay, hourBucketStart, dayBucketStart,
                         consecutiveBlocks, recentOutcomes, breakerOpenUntil, tripsIn48h, disabled)
    }

    constructor (policy: Policy)
      ensures this.policy == policy && State() == Fresh
    {
      this.policy := policy;
      lastRequestAt, requestsThisHour, requestsThisDay := None, 0, 0;
      hourBucketStart, dayBucketStart := None, None;
      consecutiveBlocks, recentOutcomes, breakerOpenUntil, tripsIn48h, disabled := 0, [], None, [], false;
    }

    method RollBuckets(now: Time)
      modifies this
      ensures State() == LimiterRules.RollBuckets(old(State()), now)
    {
      if hourBucketStart.None? || now - hourBucketStart.value >= HOUR {
        hourBucketStart := Some(now);
        requestsThisHour := 0;
      }
      if dayBucketStart.None? || now - dayBucketStart.value >= DAY {
        dayBucketStart := Some(now);
        requestsThisDay := 0;
      }
    }

    method CanAdmit(kind: TaskKind, now: Time) returns (denial: Option<Denial>)
      modifies this
      ensures (State(), denial) == LimiterRules.CanAdmit(policy, old(State()), kind, now)
    {
      RollBuckets(now);
      if disabled { return Some(IsDisabled); }
      if breakerOpenUntil.Some? && now < breakerOpenUntil.value { return Some(BreakerOpen); }
      if lastRequestAt.Some? {
        var elapsed := now - lastRequestAt.value;
        if elapsed < policy.minDelay { return Some(DelayNotElapsed); }
      }
      if requestsThisHour >= policy.maxPerHour { return Some(HourlyCap); }
      var cap := policy.maxPerDay as real * (1.0 - policy.reserved);
      if !ReserveEligible(kind) && requestsThisDay as real >= cap { return Some(DailyCap); }
      if requestsThisDay >= policy.maxPerDay { return Some(DailyCap); }
      return None;
    }

    method RecordRequest(now: Time)
      modifies this
      ensures State() == LimiterRules.RecordRequest(old(State()), now)
    {
      RollBuckets(now);
      lastRequestAt := Some(now);
      requestsThisHour := requestsThisHour + 1;
      requestsThisDay := requestsThisDay + 1;
    }

    method RecordOutcome(blocked: bool, now: Time)
      requires policy.minSample >= 1
      modifies this
      ensures State() == LimiterRules.RecordOutcome(policy, old(State()), blocked, now)
    {
      hide CountTrue, Within48h;
      if blocked {
        consecutiveBlocks := consecutiveBlocks + 1;
      } else {
        consecutiveBlocks := 0;
      }
      recentOutcomes := recentOutcomes + [blocked];
      if |recentOutcomes| > policy.minSample {
        recentOutcomes := recentOutcomes[1..];
      }
      var shouldTrip := false;
      if consecutiveBlocks >= policy.consecutiveBlocks {
        shouldTrip := true;
      } else if |recentOutcomes| >= policy.minSample {
        var rate := CountTrue(recentOutcomes) as real / |recentOutcomes| as real;
        if rate > policy.blockRate {
          shouldTrip := true;
        }
      }
      if shouldTrip && (breakerOpenUntil.None? || now >= breakerOpenUntil.value) {
        breakerOpenUntil := Some(now + policy.cooldown);
        tripsIn48h := Within48h(tripsIn48h, now);
        tripsIn48h := tripsIn48h + [now];
        consecutiveBlocks := 0;
        if |tripsIn48h| >= policy.disableAfter {
          disabled := true;
        }
      }
    }
  }
}
