/** What the two DISTINCT ON reads of fpt/store/deals.py return: one price a day, and one row
    a retailer. */
module Queries {
  import opened Core
  import opened References
  import opened Schema

  // ---------------------------------------------------------------- one price a day

  function DayOf(b: Observation): NonClearanceDay
    requires b.price.Some?
  {
    NonClearanceDay(b.dayEt, b.price.value)
  }

  ghost predicate IsLatest(observations: seq<Observation>, offerId: nat, since: int, k: nat) {
    && k < |observations| && CountsForHistory(observations[k], offerId, since)
    && LatestOfDay(observations, offerId, since, observations[k].dayEt) == Some(k)
  }

  ghost predicate FromLatest(observations: seq<Observation>, offerId: nat, since: int, n: nat, d: NonClearanceDay)
    requires n <= |observations|
  {
    exists k :: 0 <= k < n && IsLatest(observations, offerId, since, k) && DayOf(observations[k]) == d
  }

  ghost predicate DaysOk(observations: seq<Observation>, offerId: nat, since: int, n: nat, r: seq<NonClearanceDay>)
    requires n <= |observations|
  {
    && (forall i :: 0 <= i < |r| ==> FromLatest(observations, offerId, since, n, r[i]))
    && (forall k :: 0 <= k < n && IsLatest(observations, offerId, since, k) ==> DayOf(observations[k]) in r)
    && (forall i, j :: 0 <= i < j < |r| ==> r[i].day != r[j].day)
  }

  lemma OneMoreDay(observations: seq<Observation>, offerId: nat, since: int, n: nat, earlier: seq<NonClearanceDay>)
    requires 0 < n <= |observations| && DaysOk(observations, offerId, since, n - 1, earlier)
    requires IsLatest(observations, offerId, since, n - 1)
    ensures DaysOk(observations, offerId, since, n, earlier + [DayOf(observations[n - 1])])
  {
    var r := earlier + [DayOf(observations[n - 1])];
    forall i | 0 <= i < |earlier|
        ensures FromLatest(observations, offerId, since, n, r[i]) && r[i].day != observations[n - 1].dayEt {
      assert FromLatest(observations, offerId, since, n - 1, earlier[i]);
    }
  }

  lemma SameDays(observations: seq<Observation>, offerId: nat, since: int, n: nat, r: seq<NonClearanceDay>)
    requires 0 < n <= |observations| && DaysOk(observations, offerId, since, n - 1, r)
    requires !IsLatest(observations, offerId, since, n - 1)
    ensures DaysOk(observations, offerId, since, n, r)
  {
    forall i | 0 <= i < |r| ensures FromLatest(observations, offerId, since, n, r[i]) {
      assert FromLatest(observations, offerId, since, n - 1, r[i]);
    }
  }

  lemma {:induction false} DailyPricesUpTo(observations: seq<Observation>, offerId: nat, since: int, n: nat)
    requires n <= |observations|
    ensures DaysOk(observations, offerId, since, n, DailyPrices(observations, offerId, since, n))
  {
    hide DaysOk;
    if n > 0 {
      DailyPricesUpTo(observations, offerId, since, n - 1);
      var earlier := DailyPrices(observations, offerId, since, n - 1);
      if IsLatest(observations, offerId, since, n - 1) {
        OneMoreDay(observations, offerId, since, n, earlier);
      } else {
        SameDays(observations, offerId, since, n, earlier);
      }
    } else {
      NoDays(observations, offerId, since);
    }
  }

  lemma NoDays(observations: seq<Observation>, offerId: nat, since: int)
    ensures DaysOk(observations, offerId, since, 0, [])
  {
  }

  /** Every day with a qualifying observation appears exactly once, with the price of its
      latest one, and no other day appears. */
  lemma DailyPricesExactly(observations: seq<Observation>, offerId: nat, since: int, day: int)
    ensures var r := DailyPrices(observations, offerId, since, |observations|);
            var k := LatestOfDay(observations, offerId, since, day);
            && (forall i, j :: 0 <= i < j < |r| ==> r[i].day != r[j].day)
            && (k.Some? ==> NonClearanceDay(day, observations[k.value].price.value) in r)
            && (k.None? ==> forall i :: 0 <= i < |r| ==> r[i].day != day)
  {
    DailyPricesUpTo(observations, offerId, since, |observations|);
    var r := DailyPrices(observations, offerId, since, |observations|);
    var k := LatestOfDay(observations, offerId, since, day);
    if k.Some? {
      assert IsLatest(observations, offerId, since, k.value);
    } else {
      forall i | 0 <= i < |r| ensures r[i].day != day {
        assert FromLatest(observations, offerId, since, |observations|, r[i]);
      }
    }
  }

  // ---------------------------------------------------------------- one row a retailer

  /** Offer i stands for its retailer at least as well as offer j. */
  ghost predicate NewerOffer(t: Tables, q: NewOffersQuery, i: nat, j: nat)
    requires i < |t.offers| && j < |t.offers|
  {
    var a, b := RecentRow(t, q, i), RecentRow(t, q, j);
    a.Some? && (b.Some? && b.value.retailerId == a.value.retailerId ==>
      b.value.at < a.value.at || (b.value.at == a.value.at && i <= j))
  }

  lemma {:induction false} NewestUpTo(t: Tables, q: NewOffersQuery, j: nat, n: nat) returns (i: nat)
    requires j < |t.offers| && RecentRow(t, q, j).Some? && n <= |t.offers|
    ensures i < |t.offers| && RecentRow(t, q, i).Some?
    ensures RecentRow(t, q, i).value.retailerId == RecentRow(t, q, j).value.retailerId
    ensures NewerOffer(t, q, i, j) && forall m :: 0 <= m < n ==> NewerOffer(t, q, i, m)
  {
    hide RecentRow;
    if n == 0 {
      i := j;
    } else {
      var k := NewestUpTo(t, q, j, n - 1);
      i := if NewerOffer(t, q, k, n - 1) then k else n - 1;
      forall m | 0 <= m < n ensures NewerOffer(t, q, i, m) {
        if m < n - 1 { assert NewerOffer(t, q, k, m); }
      }
    }
  }

  /** Every retailer with a recent in-stock offer of the variant is represented, by its most
      recently observed one. */
  lemma RetailerRepresented(t: Tables, q: NewOffersQuery, j: nat) returns (i: nat)
    requires j < |t.offers| && RecentRow(t, q, j).Some?
    ensures i < |t.offers| && RepresentsRetailer(t, q, i) && RecentRow(t, q, i).Some?
    ensures RecentRow(t, q, i).value.retailerId == RecentRow(t, q, j).value.retailerId
    ensures RecentRow(t, q, i).value.at >= RecentRow(t, q, j).value.at
  {
    hide RecentRow;
    i := NewestUpTo(t, q, j, |t.offers|);
    assert NewerOffer(t, q, i, j);
    forall m | 0 <= m < |t.offers| && m != i
      ensures var other := RecentRow(t, q, m);
              other.Some? && other.value.retailerId == RecentRow(t, q, i).value.retailerId ==>
                other.value.at < RecentRow(t, q, i).value.at || (other.value.at == RecentRow(t, q, i).value.at && i < m)
    {
      assert NewerOffer(t, q, i, m);
    }
  }

  ghost predicate RowFrom(t: Tables, q: NewOffersQuery, n: nat, row: NewOfferRow)
    requires n <= |t.offers|
  {
    exists j :: 0 <= j < n && RepresentsRetailer(t, q, j) && RecentRow(t, q, j) == Some(row)
  }

  lemma OneRepresentative(t: Tables, q: NewOffersQuery, i: nat, j: nat)
    requires i < j < |t.offers| && RepresentsRetailer(t, q, i) && RepresentsRetailer(t, q, j)
    ensures RecentRow(t, q, i).value.retailerId != RecentRow(t, q, j).value.retailerId
  {
  }

  ghost predicate RowsOk(t: Tables, q: NewOffersQuery, n: nat, rows: seq<NewOfferRow>)
    requires n <= |t.offers|
  {
    && (forall j :: 0 <= j < n && RepresentsRetailer(t, q, j) ==> RecentRow(t, q, j).value in rows)
    && (forall i :: 0 <= i < |rows| ==> RowFrom(t, q, n, rows[i]))
    && (forall i, j :: 0 <= i < j < |rows| ==> rows[i].retailerId != rows[j].retailerId)
  }

  lemma OneMoreRow(t: Tables, q: NewOffersQuery, n: nat, earlier: seq<NewOfferRow>)
    requires 0 < n <= |t.offers| && RowsOk(t, q, n - 1, earlier) && RepresentsRetailer(t, q, n - 1)
    ensures RowsOk(t, q, n, earlier + [RecentRow(t, q, n - 1).value])
  {
    hide RepresentsRetailer, RecentRow;
    Represents(t, q, n - 1);
    var rows := earlier + [RecentRow(t, q, n - 1).value];
    forall i | 0 <= i < |earlier|
      ensures RowFrom(t, q, n, rows[i]) && earlier[i].retailerId != RecentRow(t, q, n - 1).value.retailerId
    {
      assert RowFrom(t, q, n - 1, earlier[i]);
      var j :| 0 <= j < n - 1 && RepresentsRetailer(t, q, j) && RecentRow(t, q, j) == Some(earlier[i]);
      OneRepresentative(t, q, j, n - 1);
    }
    assert RowFrom(t, q, n, rows[|earlier|]);
  }

  lemma Represents(t: Tables, q: NewOffersQuery, j: nat)
    requires j < |t.offers| && RepresentsRetailer(t, q, j)
    ensures RecentRow(t, q, j).Some?
  {
  }

  lemma SameRows(t: Tables, q: NewOffersQuery, n: nat, rows: seq<NewOfferRow>)
    requires 0 < n <= |t.offers| && RowsOk(t, q, n - 1, rows) && !RepresentsRetailer(t, q, n - 1)
    ensures RowsOk(t, q, n, rows)
  {
    hide RepresentsRetailer, RecentRow;
    forall i | 0 <= i < |rows| ensures RowFrom(t, q, n, rows[i]) {
      assert RowFrom(t, q, n - 1, rows[i]);
    }
  }

  lemma NoRows(t: Tables, q: NewOffersQuery)
    ensures RowsOk(t, q, 0, [])
  {
  }

  lemma {:induction false} RowsUpTo(t: Tables, q: NewOffersQuery, n: nat)
    requires n <= |t.offers|
    ensures RowsOk(t, q, n, RecentRows(t, q, n))
  {
    hide RowsOk, RepresentsRetailer, RecentRow;
    if n == 0 {
      NoRows(t, q);
    } else {
      RowsUpTo(t, q, n - 1);
      if RepresentsRetailer(t, q, n - 1) {
        OneMoreRow(t, q, n, RecentRows(t, q, n - 1));
      } else {
        SameRows(t, q, n, RecentRows(t, q, n - 1));
      }
    }
  }

  /** The lookup returns exactly one row for every retailer that has a recent offer of the
      variant: the most recently observed one. */
  lemma OneRowPerRetailer(t: Tables, q: NewOffersQuery, j: nat) returns (row: NewOfferRow)
    requires j < |t.offers| && RecentRow(t, q, j).Some?
    ensures var rows := RecentRows(t, q, |t.offers|);
            && row in rows && row.retailerId == RecentRow(t, q, j).value.retailerId
            && row.at >= RecentRow(t, q, j).value.at
            && (forall a, b :: 0 <= a < b < |rows| ==> rows[a].retailerId != rows[b].retailerId)
  {
    var i := RetailerRepresented(t, q, j);
    RowsUpTo(t, q, |t.offers|);
    row := RecentRow(t, q, i).value;
  }
}
