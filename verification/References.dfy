/** Reference prices (fpt/deals/references.py): the retailer's own median (R1), the
    cheapest verified other retailer (R2), a data API (R3), and the current NEW price
    that a used offer is measured against (U1). */
module References {
  import opened Core
  import opened Percent

  // ---------------------------------------------------------------- sorting

  ghost predicate Sorted(s: seq<int>) {
    forall i, j :: 0 <= i < j < |s| ==> s[i] <= s[j]
  }

  function Insert(x: int, s: seq<int>): (r: seq<int>)
    ensures |r| == |s| + 1
  {
    if s == [] || x <= s[0] then [x] + s else [s[0]] + Insert(x, s[1..])
  }

  lemma {:induction false} InsertKeeps(x: int, s: seq<int>)
    ensures multiset(Insert(x, s)) == multiset(s) + multiset{x}
  {
    if s == [] || x <= s[0] {
    } else {
      InsertKeeps(x, s[1..]);
      assert s == [s[0]] + s[1..];
    }
  }

  lemma {:induction false} InsertSorted(x: int, s: seq<int>)
    requires Sorted(s)
    ensures Sorted(Insert(x, s))
  {
    if s == [] || x <= s[0] {
    } else {
      var t := Insert(x, s[1..]);
      InsertSorted(x, s[1..]);
      InsertKeeps(x, s[1..]);
      forall i | 0 <= i < |t| ensures s[0] <= t[i] {
        assert t[i] in multiset(t);
        assert t[i] == x || t[i] in s[1..];
      }
    }
  }

  function Sort(s: seq<int>): (r: seq<int>)
    ensures |r| == |s|
  {
    if s == [] then [] else Insert(s[0], Sort(s[1..]))
  }

  lemma {:induction false} SortKeeps(s: seq<int>)
    ensures Sorted(Sort(s)) && multiset(Sort(s)) == multiset(s)
  {
    if s != [] {
      SortKeeps(s[1..]);
      InsertSorted(s[0], Sort(s[1..]));
      InsertKeeps(s[0], Sort(s[1..]));
      assert s == [s[0]] + s[1..];
    }
  }

  lemma HeadIsLeast(s: seq<int>, y: int)
    requires Sorted(s) && y in multiset(s)
    ensures s != [] && s[0] <= y
  {
    assert y in s;
  }

  /** A multiset has only one sorted listing. */
  lemma {:induction false} SortedUnique(a: seq<int>, b: seq<int>)
    requires Sorted(a) && Sorted(b) && multiset(a) == multiset(b)
    ensures a == b
  {
    assert |multiset(a)| == |a| && |multiset(b)| == |b|;
    if a != [] {
      SameHead(a, b);
      SortedUnique(a[1..], b[1..]);
      assert a == [a[0]] + a[1..] && b == [b[0]] + b[1..];
    }
  }

  lemma SameHead(a: seq<int>, b: seq<int>)
    requires Sorted(a) && Sorted(b) && multiset(a) == multiset(b) && a != [] && b != []
    ensures a[0] == b[0] && multiset(a[1..]) == multiset(b[1..])
  {
    TailMultiset(a);
    TailMultiset(b);
    HeadIsLeast(a, b[0]);
    HeadIsLeast(b, a[0]);
  }

  lemma TailMultiset(s: seq<int>)
    requires s != []
    ensures multiset(s[1..]) == multiset(s) - multiset{s[0]}
    ensures s[0] in multiset(s)
  {
    assert s == [s[0]] + s[1..];
  }

  /** How many entries are at most v. */
  function AtMost(s: seq<int>, v: int): (n: nat)
    ensures n <= |s|
  {
    if s == [] then 0 else (if s[0] <= v then 1 else 0) + AtMost(s[1..], v)
  }

  lemma {:induction false} AtMostInsert(x: int, s: seq<int>, v: int)
    ensures AtMost(Insert(x, s), v) == AtMost(s, v) + (if x <= v then 1 else 0)
  {
    if s == [] || x <= s[0] {
      assert ([x] + s)[1..] == s;
    } else {
      AtMostInsert(x, s[1..], v);
      assert ([s[0]] + Insert(x, s[1..]))[1..] == Insert(x, s[1..]);
    }
  }

  lemma {:induction false} AtMostSort(s: seq<int>, v: int)
    ensures AtMost(Sort(s), v) == AtMost(s, v)
  {
    if s != [] {
      AtMostSort(s[1..], v);
      AtMostInsert(s[0], Sort(s[1..]), v);
    }
  }

  /** In a sorted sequence the count at most v is the boundary index of v. */
  lemma {:induction false} AtMostSorted(s: seq<int>, k: nat, v: int)
    requires Sorted(s) && k < |s|
    ensures s[k] <= v ==> AtMost(s, v) >= k + 1
    ensures s[k] > v ==> AtMost(s, v) <= k
  {
    if k > 0 {
      AtMostSorted(s[1..], k - 1, v);
    } else if s[0] > v {
      NoneAtMost(s, v);
    }
  }

  lemma {:induction false} NoneAtMost(s: seq<int>, v: int)
    requires forall i :: 0 <= i < |s| ==> s[i] > v
    ensures AtMost(s, v) == 0
  {
    if s != [] { NoneAtMost(s[1..], v); }
  }

  // ---------------------------------------------------------------- R1

  /** round(statistics.median(prices)). */
  function Median(prices: seq<int>): int
    requires prices != []
  {
    var s := Sort(prices);
    var n := |s|;
    if n % 2 == 1 then s[n / 2] else RoundHalfEven(s[n / 2 - 1] + s[n / 2], 2)
  }

  /** The median is a function of the multiset of prices: the order of the days is irrelevant. */
  lemma MedianIgnoresOrder(a: seq<int>, b: seq<int>)
    requires a != [] && multiset(a) == multiset(b)
    ensures b != [] && Median(a) == Median(b)
  {
    assert |multiset(a)| == |a| && |multiset(b)| == |b|;
    SortKeeps(a);
    SortKeeps(b);
    SortedUnique(Sort(a), Sort(b));
  }

  /** The median of a sorted list: the middle price or, of an even number, half the sum of the
      middle two, a half cent going to the even neighbour. */
  lemma MedianExactly(prices: seq<int>, s: seq<int>)
    requires prices != [] && Sorted(s) && multiset(s) == multiset(prices)
    ensures |s| == |prices|
    ensures var n, m := |s|, Median(prices);
            if n % 2 == 1 then m == s[n / 2]
            else
              var sum := s[n / 2 - 1] + s[n / 2];
              2 * m == sum || ((2 * m == sum + 1 || 2 * m == sum - 1) && m % 2 == 0)
  {
    assert |multiset(s)| == |s| && |multiset(prices)| == |prices|;
    SortKeeps(prices);
    SortedUnique(s, Sort(prices));
  }

  /** Even after rounding, at least half the prices are at or below the median and at
      least half at or above it. */
  lemma MedianSplits(prices: seq<int>, m: int)
    requires prices != [] && m == Median(prices)
    ensures 2 * AtMost(prices, m) >= |prices|
    ensures 2 * AtMost(prices, m - 1) <= |prices|
  {
    MedianPick(prices);
    SortKeeps(prices);
    MiddleSplits(prices, Sort(prices), m);
  }

  lemma MedianPick(prices: seq<int>)
    requires prices != []
    ensures var s := Sort(prices); var k := |s| / 2;
            if |s| % 2 == 1 then Median(prices) == s[k] else s[k - 1] <= Median(prices) <= s[k]
  {
    var s := Sort(prices);
    SortKeeps(prices);
    if |s| % 2 == 0 {
      Midpoint(s[|s| / 2 - 1], s[|s| / 2]);
    }
  }

  lemma Midpoint(a: int, b: int)
    requires a <= b
    ensures a <= RoundHalfEven(a + b, 2) <= b
  {
  }

  lemma MiddleSplits(prices: seq<int>, s: seq<int>, m: int)
    requires s == Sort(prices) && Sorted(s) && s != []
    requires if |s| % 2 == 1 then m == s[|s| / 2] else s[|s| / 2 - 1] <= m <= s[|s| / 2]
    ensures 2 * AtMost(prices, m) >= |prices| && 2 * AtMost(prices, m - 1) <= |prices|
  {
    var k := |s| / 2;
    AtMostSorted(s, if |s| % 2 == 1 then k else k - 1, m);
    AtMostSorted(s, k, m - 1);
    AtMostSort(prices, m);
    AtMostSort(prices, m - 1);
  }

  /** How many positions two histories of the same days differ in. */
  function Changed(a: seq<int>, b: seq<int>): nat
    requires |a| == |b|
  {
    if a == [] then 0 else (if a[0] != b[0] then 1 else 0) + Changed(a[1..], b[1..])
  }

  /** If every unchanged price is above v, only changed days can be at most v (and likewise below). */
  lemma {:induction false} OnlyChangedCross(a: seq<int>, b: seq<int>, v: int)
    requires |a| == |b|
    ensures (forall i :: 0 <= i < |a| && a[i] == b[i] ==> a[i] > v) ==> AtMost(b, v) <= Changed(a, b)
    ensures (forall i :: 0 <= i < |a| && a[i] == b[i] ==> a[i] <= v) ==> |b| - AtMost(b, v) <= Changed(a, b)
  {
    if a != [] {
      var a', b' := a[1..], b[1..];
      OnlyChangedCross(a', b', v);
      assert forall i :: 0 <= i < |a'| ==> a'[i] == a[i + 1] && b'[i] == b[i + 1];
    }
  }

  /** Robustness of R1: rewriting the price of fewer than half the days cannot push the
      median outside the range of the prices that were not rewritten. */
  lemma MedianRobust(a: seq<int>, b: seq<int>, low: int, high: int, m: int)
    requires |a| == |b| && 2 * Changed(a, b) < |a| && b != [] && m == Median(b)
    requires forall i :: 0 <= i < |a| && a[i] == b[i] ==> low <= a[i] <= high
    ensures low <= m <= high
  {
    MedianSplits(b, m);
    Outvoted(a, b, low, high, m);
  }

  lemma Outvoted(a: seq<int>, b: seq<int>, low: int, high: int, m: int)
    requires |a| == |b| && 2 * Changed(a, b) < |a|
    requires forall i :: 0 <= i < |a| && a[i] == b[i] ==> low <= a[i] <= high
    requires 2 * AtMost(b, m) >= |b| && 2 * AtMost(b, m - 1) <= |b|
    ensures low <= m <= high
  {
    OnlyChangedCross(a, b, m);
    OnlyChangedCross(a, b, m - 1);
  }

  lemma MedianPositive(prices: seq<int>)
    requires prices != [] && forall i :: 0 <= i < |prices| ==> prices[i] > 0
    ensures Median(prices) > 0
  {
    MedianSplits(prices, Median(prices));
    if Median(prices) <= 0 {
      NoneAtMost(prices, Median(prices));
    }
  }

  datatype NonClearanceDay = NonClearanceDay(day: int, price: int)
  datatype OwnHistory = OwnHistory(median: int, observedDays: nat, spanDays: int)

  const MIN_DAYS := 21
  const MIN_SPAN_DAYS := 30

  function Prices(days: seq<NonClearanceDay>): (r: seq<int>) {
    seq(|days|, i requires 0 <= i < |days| => days[i].price)
  }

  function Dates(days: seq<NonClearanceDay>): (r: seq<int>) {
    seq(|days|, i requires 0 <= i < |days| => days[i].day)
  }

  /** R1: the median of the daily non-clearance prices, once there is enough evidence. */
  function ResolveOwnHistoryMedian(days: seq<NonClearanceDay>): Option<OwnHistory> {
    if days == [] then None else
      var ordered := Sort(Dates(days));
      var span := ordered[|ordered| - 1] - ordered[0];
      if |ordered| < MIN_DAYS || span < MIN_SPAN_DAYS then None
      else Some(OwnHistory(Median(Prices(days)), |ordered|, span))
  }

  /** R1 exists exactly when there are 21 days of which two lie 30 days apart; it does not
      depend on the order in which the query returns the days. */
  lemma OwnHistoryEvidence(days: seq<NonClearanceDay>)
    ensures ResolveOwnHistoryMedian(days).Some?
       <==> |days| >= 21 && exists i, j :: 0 <= i < |days| && 0 <= j < |days| && days[j].day - days[i].day >= 30
  {
    if days != [] {
      var i, j := SortEnds(Dates(days));
      assert days[i].day == Dates(days)[i] && days[j].day == Dates(days)[j];
      forall k | 0 <= k < |days| ensures days[i].day <= days[k].day <= days[j].day {
        assert days[k].day == Dates(days)[k];
      }
    }
  }

  /** The ends of the sorted listing are the least and the greatest entry. */
  lemma SortEnds(s: seq<int>) returns (i: nat, j: nat)
    requires s != []
    ensures i < |s| && j < |s| && s[i] == Sort(s)[0] && s[j] == Sort(s)[|s| - 1]
    ensures forall k :: 0 <= k < |s| ==> s[i] <= s[k] <= s[j]
  {
    var t := Sort(s);
    SortKeeps(s);
    assert t[0] in multiset(t) && t[|t| - 1] in multiset(t);
    i :| i < |s| && s[i] == t[0];
    j :| j < |s| && s[j] == t[|t| - 1];
    forall k | 0 <= k < |s| ensures s[i] <= s[k] <= s[j] {
      assert s[k] in multiset(s);
      assert s[k] in t;
    }
  }

  lemma OwnHistoryIgnoresOrder(a: seq<NonClearanceDay>, b: seq<NonClearanceDay>)
    requires multiset(Prices(a)) == multiset(Prices(b)) && multiset(Dates(a)) == multiset(Dates(b))
    ensures ResolveOwnHistoryMedian(a) == ResolveOwnHistoryMedian(b)
  {
    hide Sort, Median;
    assert |multiset(Prices(a))| == |a| && |multiset(Prices(b))| == |b|;
    if a != [] {
      SortKeeps(Dates(a));
      SortKeeps(Dates(b));
      SortedUnique(Sort(Dates(a)), Sort(Dates(b)));
      MedianIgnoresOrder(Prices(a), Prices(b));
    }
  }

  // ---------------------------------------------------------------- R2, R3 and the verified minimum

  datatype MatchStatus = AutoGtin | AutoMpn | Manual | AutoAttributes | AutoCreated | NeedsReview | Unmatched

  predicate Verifiable(m: MatchStatus) {
    m == AutoGtin || m == AutoMpn || m == Manual
  }

  datatype CrossRetailer = CrossRetailer(
    retailerId: int, price: int, matchStatus: MatchStatus, variantKey: Option<string>, unitCount: Option<int>)

  /** R2: the cheapest candidate whose match to the variant can be trusted. */
  function ResolveCrossRetailerNew(candidates: seq<CrossRetailer>): (r: Option<CrossRetailer>)
    ensures r.None? <==> forall i :: 0 <= i < |candidates| ==> !Verifiable(candidates[i].matchStatus)
    ensures r.Some? ==> r.value in candidates && Verifiable(r.value.matchStatus)
    ensures r.Some? ==> forall i :: 0 <= i < |candidates| && Verifiable(candidates[i].matchStatus)
                                    ==> r.value.price <= candidates[i].price
  {
    if candidates == [] then None else
      var last := candidates[|candidates| - 1];
      var rest := candidates[..|candidates| - 1];
      assert candidates == rest + [last];
      var best := ResolveCrossRetailerNew(rest);
      if !Verifiable(last.matchStatus) then best
      else if best.Some? && best.value.price <= last.price then best
      else Some(last)
  }

  datatype ReferenceKind = OwnHistoryMedian90d | CrossRetailerNew | DataApiHistory | CurrentNew | RetailerClaimed

  datatype VerifiedReference = VerifiedReference(
    kind: ReferenceKind, cents: int, variantKey: Option<string>, unitCount: Option<int>)

  /** The references that exist, in the order R1, R2, R3. */
  function Available(own: Option<OwnHistory>, cross: Option<CrossRetailer>,
                     dataApi: Option<int>): seq<VerifiedReference> {
    (if own.Some? then [VerifiedReference(OwnHistoryMedian90d, own.value.median, None, None)] else [])
    + (if cross.Some?
       then [VerifiedReference(CrossRetailerNew, cross.value.price, cross.value.variantKey, cross.value.unitCount)]
       else [])
    + (if dataApi.Some? then [VerifiedReference(DataApiHistory, dataApi.value, None, None)] else [])
  }

  /** The first of the cheapest. */
  function Cheapest(rs: seq<VerifiedReference>): (r: VerifiedReference)
    requires rs != []
    ensures r in rs && forall i :: 0 <= i < |rs| ==> r.cents <= rs[i].cents
  {
    if |rs| == 1 then rs[0] else
      var rest := Cheapest(rs[1..]);
      if rs[0].cents <= rest.cents then rs[0] else rest
  }

  function ResolveVerifiedReference(own: Option<OwnHistory>, cross: Option<CrossRetailer>, dataApi: Option<int>)
    : (r: Option<VerifiedReference>)
    ensures r.None? <==> own.None? && cross.None? && dataApi.None?
    ensures r.Some? && own.Some? ==> r.value.cents <= own.value.median
    ensures r.Some? && cross.Some? ==> r.value.cents <= cross.value.price
    ensures r.Some? && dataApi.Some? ==> r.value.cents <= dataApi.value
    ensures r.Some? ==> r.value in Available(own, cross, dataApi)
  {
    var rs := Available(own, cross, dataApi);
    assert own.Some? ==> rs[0].cents == own.value.median;
    assert cross.Some? ==> rs[if own.Some? then 1 else 0].cents == cross.value.price;
    assert dataApi.Some? ==> rs[|rs| - 1].cents == dataApi.value;
    if rs == [] then None else Some(Cheapest(rs))
  }

  /** claimed > 1.25 x verified; unknown without a verified reference. */
  function ClaimedInflated(claimed: Option<int>, verified: Option<int>): Option<bool> {
    if claimed.None? || verified.None? then None else Some(4 * claimed.value > 5 * verified.value)
  }

  /** R2 needs a match by barcode, by manufacturer number or by hand, and takes the cheapest. */
  lemma CrossRetailerExactly(candidates: seq<CrossRetailer>)
    ensures var r := ResolveCrossRetailerNew(candidates);
            && (r.Some? ==> r.value in candidates && r.value.matchStatus in {AutoGtin, AutoMpn, Manual})
            && forall c :: c in candidates && c.matchStatus in {AutoGtin, AutoMpn, Manual} ==>
                 r.Some? && r.value.price <= c.price
  {
    var r := ResolveCrossRetailerNew(candidates);
    forall c | c in candidates && c.matchStatus in {AutoGtin, AutoMpn, Manual}
      ensures r.Some? && r.value.price <= c.price
    {
      var i :| 0 <= i < |candidates| && candidates[i] == c;
    }
  }

  /** The verified reference is one of R1, R2 and R3 under its own kind, and none of them is
      lower. */
  lemma VerifiedReferenceExactly(own: Option<OwnHistory>, cross: Option<CrossRetailer>, dataApi: Option<int>)
    ensures var r := ResolveVerifiedReference(own, cross, dataApi);
            && (r.None? <==> own.None? && cross.None? && dataApi.None?)
            && (r.Some? ==>
                  var v := r.value;
                  && (own.Some? ==> v.cents <= own.value.median)
                  && (cross.Some? ==> v.cents <= cross.value.price)
                  && (dataApi.Some? ==> v.cents <= dataApi.value)
                  && (match v.kind
                      case OwnHistoryMedian90d =>
                        own.Some? && v.cents == own.value.median && v.variantKey.None? && v.unitCount.None?
                      case CrossRetailerNew =>
                        cross.Some? && v.cents == cross.value.price && v.variantKey == cross.value.variantKey
                        && v.unitCount == cross.value.unitCount
                      case DataApiHistory => dataApi.Some? && v.cents == dataApi.value
                      case _ => false))
  {
  }
}
