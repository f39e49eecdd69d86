/** Tumbling buckets seen from outside: marks that fall into consecutive buckets of one
    length, each holding at most a cap, leave at most twice the cap in any window of that
    length. */
module Windows {

  /** A recorded instant and the start of the bucket that counted it. */
  datatype Mark = Mark(at: int, start: int)

  function CountStart(ms: seq<Mark>, start: int): nat {
    if ms == [] then 0 else CountStart(ms[..|ms| - 1], start) + (if ms[|ms| - 1].start == start then 1 else 0)
  }

  /** Marks in the half-open window [lo, hi). */
  function CountBetween(ms: seq<Mark>, lo: int, hi: int): nat {
    if ms == [] then 0 else CountBetween(ms[..|ms| - 1], lo, hi) + (if lo <= ms[|ms| - 1].at < hi then 1 else 0)
  }

  ghost predicate Tumbling(ms: seq<Mark>, length: int) {
    && (forall i :: 0 <= i < |ms| ==> ms[i].start <= ms[i].at < ms[i].start + length)
    && (forall i, j :: 0 <= i < j < |ms| ==>
        ms[i].at <= ms[j].at && (ms[i].start == ms[j].start || ms[i].start + length <= ms[j].start))
  }

  /** Every bucket holds at most cap marks. */
  ghost predicate Capped(ms: seq<Mark>, cap: nat) {
    forall b :: CountStart(ms, b) <= cap
  }

  lemma {:induction false} TwoBuckets(ms: seq<Mark>, lo: int, hi: int, a: int, b: int)
    requires forall k :: 0 <= k < |ms| && lo <= ms[k].at < hi ==> ms[k].start == a || ms[k].start == b
    ensures CountBetween(ms, lo, hi) <= CountStart(ms, a) + CountStart(ms, b)
  {
    if ms != [] { TwoBuckets(ms[..|ms| - 1], lo, hi, a, b); }
  }

  lemma {:induction false} NoneBetween(ms: seq<Mark>, lo: int, hi: int)
    requires forall k :: 0 <= k < |ms| ==> !(lo <= ms[k].at < hi)
    ensures CountBetween(ms, lo, hi) == 0
  {
    if ms != [] { NoneBetween(ms[..|ms| - 1], lo, hi); }
  }

  lemma {:induction false} FirstAndLast(ms: seq<Mark>, lo: int, hi: int) returns (i: nat, j: nat)
    requires exists k :: 0 <= k < |ms| && lo <= ms[k].at < hi
    ensures i <= j < |ms| && lo <= ms[i].at < hi && lo <= ms[j].at < hi
    ensures forall k :: 0 <= k < |ms| && lo <= ms[k].at < hi ==> i <= k <= j
  {
    i, j := 0, |ms| - 1;
    while !(lo <= ms[i].at < hi)
      invariant 0 <= i < |ms| && forall k :: 0 <= k < |ms| && lo <= ms[k].at < hi ==> i <= k
      decreases |ms| - i
    {
      i := i + 1;
    }
    while !(lo <= ms[j].at < hi)
      invariant i <= j < |ms| && forall k :: 0 <= k < |ms| && lo <= ms[k].at < hi ==> k <= j
      decreases j
    {
      j := j - 1;
    }
  }

  /** The window bound: a window no longer than a bucket meets at most two buckets. */
  lemma WindowBound(ms: seq<Mark>, length: int, cap: nat, lo: int, hi: int)
    requires Tumbling(ms, length) && Capped(ms, cap) && hi - lo <= length
    ensures CountBetween(ms, lo, hi) <= 2 * cap
  {
    if exists k :: 0 <= k < |ms| && lo <= ms[k].at < hi {
      var i, j := FirstAndLast(ms, lo, hi);
      forall k | 0 <= k < |ms| && lo <= ms[k].at < hi
        ensures ms[k].start == ms[i].start || ms[k].start == ms[j].start
      {
      }
      TwoBuckets(ms, lo, hi, ms[i].start, ms[j].start);
    } else {
      NoneBetween(ms, lo, hi);
    }
  }

  /** One more mark in the current bucket or in a later one. */
  lemma Extend(ms: seq<Mark>, length: int, cap: nat, m: Mark)
    requires Tumbling(ms, length) && Capped(ms, cap)
    requires m.start <= m.at < m.start + length
    requires forall i :: 0 <= i < |ms| ==>
               ms[i].at <= m.at && (ms[i].start == m.start || ms[i].start + length <= m.start)
    requires CountStart(ms, m.start) < cap
    ensures Tumbling(ms + [m], length) && Capped(ms + [m], cap)
    ensures CountStart(ms + [m], m.start) == CountStart(ms, m.start) + 1
  {
    OneMore(ms, m);
    forall b ensures CountStart(ms + [m], b) <= cap {
      assert CountStart(ms, b) <= cap;
      OneMore(ms, m);
    }
    Later(ms, length, m);
  }

  lemma OneMore(ms: seq<Mark>, m: Mark)
    ensures forall b :: CountStart(ms + [m], b) == CountStart(ms, b) + (if m.start == b then 1 else 0)
  {
    assert (ms + [m])[..|ms|] == ms;
  }

  lemma Later(ms: seq<Mark>, length: int, m: Mark)
    requires Tumbling(ms, length) && m.start <= m.at < m.start + length
    requires forall i :: 0 <= i < |ms| ==>
               ms[i].at <= m.at && (ms[i].start == m.start || ms[i].start + length <= m.start)
    ensures Tumbling(ms + [m], length)
  {
  }

  lemma {:induction false} UnusedBucket(ms: seq<Mark>, start: int)
    requires forall i :: 0 <= i < |ms| ==> ms[i].start != start
    ensures CountStart(ms, start) == 0
  {
    if ms != [] { UnusedBucket(ms[..|ms| - 1], start); }
  }
}
