/** The capture endpoint's sliding window (fpt/capture/ratelimit.py) and what its pruned
    buckets mean for everything it ever accepted. */
module CaptureLimiter {
  import opened Core

  // ---------------------------------------------------------------- rules

  /** Drop the hits before the cutoff from the left. */
  function Prune(bucket: seq<Time>, cutoff: Time): seq<Time> {
    if bucket == [] || bucket[0] >= cutoff then bucket else Prune(bucket[1..], cutoff)
  }

  type Buckets = map<string, seq<Time>>

  function BucketOf(hits: Buckets, key: string): seq<Time> {
    if key in hits then hits[key] else []
  }

  function AllowHit(maxRequests: int, window: Time, hits: Buckets, key: string, now: Time): (Buckets, bool) {
    var bucket := Prune(BucketOf(hits, key), now - window);
    if |bucket| >= maxRequests then (hits[key := bucket], false) else (hits[key := bucket + [now]], true)
  }

  class RateLimiter {
    const maxRequests: int
    const window: Time
    var hits: Buckets

    constructor (maxRequests: int, window: Time)
      ensures this.maxRequests == maxRequests && this.window == window && hits == map[]
    {
      this.maxRequests, this.window, hits := maxRequests, window, map[];
    }

    method Allow(key: string, now: Time) returns (ok: bool)
      modifies this
      ensures (hits, ok) == AllowHit(maxRequests, window, old(hits), key, now)
    {
      var bucket := BucketOf(hits, key);
      var cutoff := now - window;
      while bucket != [] && bucket[0] < cutoff
        invariant Prune(bucket, cutoff) == Prune(BucketOf(old(hits), key), cutoff)
        decreases |bucket|
      {
        bucket := bucket[1..];
      }
      if |bucket| >= maxRequests {
        hits := hits[key := bucket];
        return false;
      }
      hits := hits[key := bucket + [now]];
      return true;
    }
  }

  // ---------------------------------------------------------------- histories

  datatype Call = Call(key: string, now: Time)

  datatype Trace = Trace(hits: Buckets, accepted: seq<Call>)

  function TraceOf(maxRequests: int, window: Time, calls: seq<Call>): Trace {
    if calls == [] then Trace(map[], []) else
      var t := TraceOf(maxRequests, window, calls[..|calls| - 1]);
      var c := calls[|calls| - 1];
      var (hits, ok) := AllowHit(maxRequests, window, t.hits, c.key, c.now);
      Trace(hits, if ok then t.accepted + [c] else t.accepted)
  }

  ghost predicate ClockForward(calls: seq<Call>) {
    forall i, j :: 0 <= i < j < |calls| ==> calls[i].now <= calls[j].now
  }

  /** The accepted hits of one key, oldest first. */
  function TimesOf(accepted: seq<Call>, key: string): seq<Time> {
    if accepted == [] then [] else
      var last := accepted[|accepted| - 1];
      TimesOf(accepted[..|accepted| - 1], key) + (if last.key == key then [last.now] else [])
  }

  /** How many of them lie in the closed window [lo, hi]. */
  function CountIn(times: seq<Time>, lo: Time, hi: Time): nat {
    if times == [] then 0 else
      CountIn(times[..|times| - 1], lo, hi) + (if lo <= times[|times| - 1] <= hi then 1 else 0)
  }

  ghost predicate Ascending(times: seq<Time>, now: Time) {
    && (forall i, j :: 0 <= i < j < |times| ==> times[i] <= times[j])
    && (forall i :: 0 <= i < |times| ==> times[i] <= now)
  }

  /** A bucket holds the accepted hits but for old ones, older than the window at `now`. */
  ghost predicate Holds(bucket: seq<Time>, times: seq<Time>, window: Time, now: Time) {
    && |bucket| <= |times| && bucket == times[|times| - |bucket|..]
    && forall i :: 0 <= i < |times| - |bucket| ==> times[i] < now - window
  }

  lemma {:induction false} PruneHolds(bucket: seq<Time>, times: seq<Time>, window: Time, before: Time, now: Time)
    requires Holds(bucket, times, window, before) && before <= now && Ascending(times, now)
    ensures var kept := Prune(bucket, now - window);
            Holds(kept, times, window, now) && forall i :: 0 <= i < |kept| ==> kept[i] >= now - window
    decreases bucket
  {
    if bucket != [] && bucket[0] < now - window {
      assert bucket[1..] == times[|times| - (|bucket| - 1)..];
      assert forall i :: 0 <= i < |times| - |bucket| ==> times[i] < now - window;
      assert times[|times| - |bucket|] == bucket[0];
      PruneHolds(bucket[1..], times, window, now, now);
    }
  }

  lemma {:induction false} CountNone(times: seq<Time>, lo: Time, hi: Time)
    requires forall i :: 0 <= i < |times| ==> times[i] < lo
    ensures CountIn(times, lo, hi) == 0
  {
    if times != [] { CountNone(times[..|times| - 1], lo, hi); }
  }

  /** If exactly the last n hits are in the window, it counts n. */
  lemma {:induction false} CountSuffix(times: seq<Time>, n: nat, lo: Time, hi: Time)
    requires n <= |times|
    requires forall i :: 0 <= i < |times| - n ==> times[i] < lo
    requires forall i :: |times| - n <= i < |times| ==> lo <= times[i] <= hi
    ensures CountIn(times, lo, hi) == n
  {
    if n == 0 {
      CountNone(times, lo, hi);
    } else {
      CountSuffix(times[..|times| - 1], n - 1, lo, hi);
    }
  }

  lemma {:induction false} CountWider(times: seq<Time>, lo: Time, hi: Time, wideLo: Time, wideHi: Time)
    requires forall i :: 0 <= i < |times| && lo <= times[i] <= hi ==> wideLo <= times[i] <= wideHi
    ensures CountIn(times, lo, hi) <= CountIn(times, wideLo, wideHi)
  {
    if times != [] { CountWider(times[..|times| - 1], lo, hi, wideLo, wideHi); }
  }

  function AtLeastZero(n: int): nat {
    if n < 0 then 0 else n
  }

  ghost predicate Bounded(times: seq<Time>, window: Time, maxRequests: int) {
    forall lo, hi :: hi - lo <= window ==> CountIn(times, lo, hi) <= AtLeastZero(maxRequests)
  }

  /** The pruned bucket's length is the count of all accepted hits in [now - window, now]. */
  lemma PrunedCounts(bucket: seq<Time>, times: seq<Time>, window: Time, before: Time, now: Time)
    requires Holds(bucket, times, window, before) && before <= now && Ascending(times, now)
    ensures |Prune(bucket, now - window)| == CountIn(times, now - window, now)
  {
    PruneHolds(bucket, times, window, before, now);
    var kept := Prune(bucket, now - window);
    assert forall i :: |times| - |kept| <= i < |times| ==> times[i] == kept[i - (|times| - |kept|)];
    CountSuffix(times, |kept|, now - window, now);
  }

  lemma AcceptKeepsBound(times: seq<Time>, window: Time, maxRequests: int, now: Time)
    requires Bounded(times, window, maxRequests) && Ascending(times, now)
    requires CountIn(times, now - window, now) < maxRequests
    ensures Bounded(times + [now], window, maxRequests) && Ascending(times + [now], now)
  {
    var more := times + [now];
    assert more[..|times|] == times;
    forall lo, hi | hi - lo <= window ensures CountIn(more, lo, hi) <= AtLeastZero(maxRequests) {
      assert CountIn(times, lo, hi) <= AtLeastZero(maxRequests);
      if lo <= now <= hi { CountWider(times, lo, hi, now - window, now); }
    }
  }

  ghost predicate KeyOk(maxRequests: int, window: Time, t: Trace, now: Time, key: string) {
    var times := TimesOf(t.accepted, key);
    && Holds(BucketOf(t.hits, key), times, window, now) && Ascending(times, now) && Bounded(times, window, maxRequests)
  }

  lemma OtherCallKeeps(maxRequests: int, window: Time, t: Trace, before: Time, c: Call, key: string)
    requires before <= c.now && KeyOk(maxRequests, window, t, before, key) && c.key != key
    ensures var (hits, ok) := AllowHit(maxRequests, window, t.hits, c.key, c.now);
            KeyOk(maxRequests, window, Trace(hits, if ok then t.accepted + [c] else t.accepted), c.now, key)
  {
    assert (t.accepted + [c])[..|t.accepted|] == t.accepted;
    assert TimesOf(t.accepted + [c], key) == TimesOf(t.accepted, key) + [];
    assert TimesOf(t.accepted, key) + [] == TimesOf(t.accepted, key);
  }

  lemma HoldsMore(kept: seq<Time>, times: seq<Time>, window: Time, now: Time)
    requires Holds(kept, times, window, now)
    ensures Holds(kept + [now], times + [now], window, now)
  {
    assert kept + [now] == (times + [now])[|times + [now]| - |kept + [now]|..];
  }

  lemma AcceptedKeeps(maxRequests: int, window: Time, t: Trace, before: Time, c: Call)
    requires before <= c.now && KeyOk(maxRequests, window, t, before, c.key)
    requires |Prune(BucketOf(t.hits, c.key), c.now - window)| < maxRequests
    ensures var kept := Prune(BucketOf(t.hits, c.key), c.now - window);
            KeyOk(maxRequests, window, Trace(t.hits[c.key := kept + [c.now]], t.accepted + [c]), c.now, c.key)
  {
    hide Holds, Bounded, CountIn, Prune;
    var times, bucket := TimesOf(t.accepted, c.key), BucketOf(t.hits, c.key);
    PruneHolds(bucket, times, window, before, c.now);
    PrunedCounts(bucket, times, window, before, c.now);
    AcceptKeepsBound(times, window, maxRequests, c.now);
    HoldsMore(Prune(bucket, c.now - window), times, window, c.now);
    assert (t.accepted + [c])[..|t.accepted|] == t.accepted;
    assert TimesOf(t.accepted + [c], c.key) == times + [c.now];
  }

  lemma OwnCallKeeps(maxRequests: int, window: Time, t: Trace, before: Time, c: Call)
    requires before <= c.now && KeyOk(maxRequests, window, t, before, c.key)
    ensures var (hits, ok) := AllowHit(maxRequests, window, t.hits, c.key, c.now);
            KeyOk(maxRequests, window, Trace(hits, if ok then t.accepted + [c] else t.accepted), c.now, c.key)
  {
    hide Holds, Bounded, CountIn, Prune;
    PruneHolds(BucketOf(t.hits, c.key), TimesOf(t.accepted, c.key), window, before, c.now);
    if |Prune(BucketOf(t.hits, c.key), c.now - window)| < maxRequests {
      AcceptedKeeps(maxRequests, window, t, before, c);
    }
  }

  lemma {:induction false} CallsKeep(maxRequests: int, window: Time, calls: seq<Call>, now: Time, key: string)
    requires ClockForward(calls) && (calls != [] ==> calls[|calls| - 1].now <= now)
    ensures KeyOk(maxRequests, window, TraceOf(maxRequests, window, calls), now, key)
  {
    if calls != [] {
      var n := |calls| - 1;
      CallsKeep(maxRequests, window, calls[..n], calls[n].now, key);
      var t := TraceOf(maxRequests, window, calls[..n]);
      if calls[n].key == key {
        OwnCallKeeps(maxRequests, window, t, calls[n].now, calls[n]);
      } else {
        OtherCallKeeps(maxRequests, window, t, calls[n].now, calls[n], key);
      }
    } else {
      assert TimesOf([], key) == [];
    }
  }

  /** The next call is answered as counting every hit ever accepted for its key in the closed
      window before it would answer. */
  lemma AnswersAsFullCount(maxRequests: int, window: Time, calls: seq<Call>, key: string, now: Time)
    requires ClockForward(calls) && (calls != [] ==> calls[|calls| - 1].now <= now)
    ensures var t := TraceOf(maxRequests, window, calls);
            AllowHit(maxRequests, window, t.hits, key, now).1 <==>
                CountIn(TimesOf(t.accepted, key), now - window, now) < maxRequests
  {
    CallsKeep(maxRequests, window, calls, now, key);
    var t := TraceOf(maxRequests, window, calls);
    PrunedCounts(BucketOf(t.hits, key), TimesOf(t.accepted, key), window, now, now);
  }

  /** No closed window of that length holds more than max_requests accepted hits of a key. */
  lemma WindowsBounded(maxRequests: int, window: Time, calls: seq<Call>, key: string, lo: Time)
    requires ClockForward(calls)
    ensures CountIn(TimesOf(TraceOf(maxRequests, window, calls).accepted, key), lo, lo + window)
         <= AtLeastZero(maxRequests)
  {
    CallsKeep(maxRequests, window, calls, if calls == [] then 0 else calls[|calls| - 1].now, key);
  }
}
