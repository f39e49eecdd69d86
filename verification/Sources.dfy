/** Which stored observations the references R1, R2 and U1 come from, said of the rows alone. */
module Sources {
  import opened Core
  import opened Validate
  import opened References
  import opened Schema
  import opened Queries

  // ---------------------------------------------------------------- R1

  /** An OK observation of the offer, off clearance, of the last ninety days. */
  predicate InHistory(b: Observation, o: nat, today: int) {
    b.offerId == o && b.quality == Ok && b.price.Some? && !b.onClearance && today - b.dayEt <= 90
  }

  ghost function HistoryDays(observations: seq<Observation>, o: nat, today: int): set<int> {
    set k | 0 <= k < |observations| && InHistory(observations[k], o, today) :: observations[k].dayEt
  }

  ghost predicate FarApart(days: set<int>) {
    exists d, e :: d in days && e in days && e - d >= 30
  }

  ghost predicate Distinct(days: seq<NonClearanceDay>) {
    forall i, j :: 0 <= i < j < |days| ==> days[i].day != days[j].day
  }

  ghost function DaySet(days: seq<NonClearanceDay>): set<int> {
    if days == [] then {} else DaySet(days[..|days| - 1]) + {days[|days| - 1].day}
  }

  lemma {:induction false} DaySetHas(days: seq<NonClearanceDay>, day: int)
    ensures day in DaySet(days) <==> exists i :: 0 <= i < |days| && days[i].day == day
  {
    if days != [] {
      var n := |days| - 1;
      DaySetHas(days[..n], day);
      if i :| 0 <= i < |days| && days[i].day == day {
        assert i == n || days[..n][i].day == day;
      }
    }
  }

  lemma {:induction false} DistinctDays(days: seq<NonClearanceDay>)
    requires Distinct(days)
    ensures |DaySet(days)| == |days|
  {
    if days != [] {
      var n := |days| - 1;
      DistinctDays(days[..n]);
      DaySetHas(days[..n], days[n].day);
    }
  }

  lemma FarExactly(r: seq<NonClearanceDay>)
    ensures FarApart(DaySet(r))
       <==> exists i, j :: 0 <= i < |r| && 0 <= j < |r| && r[j].day - r[i].day >= 30
  {
    if FarApart(DaySet(r)) {
      var d, e :| d in DaySet(r) && e in DaySet(r) && e - d >= 30;
      DaySetHas(r, d);
      DaySetHas(r, e);
      var i :| 0 <= i < |r| && r[i].day == d;
      var j :| 0 <= j < |r| && r[j].day == e;
      assert r[j].day - r[i].day >= 30;
    }
    if i, j :| 0 <= i < |r| && 0 <= j < |r| && r[j].day - r[i].day >= 30 {
      DaySetHas(r, r[i].day);
      DaySetHas(r, r[j].day);
    }
  }

  lemma DaySeen(observations: seq<Observation>, o: nat, today: int, day: int)
    ensures var r := DailyPrices(observations, o, today - 90, |observations|);
            Distinct(r) && (day in DaySet(r) <==> day in HistoryDays(observations, o, today))
  {
    hide DailyPrices, DaySet;
    DailyPricesExactly(observations, o, today - 90, day);
    var r := DailyPrices(observations, o, today - 90, |observations|);
    DaySetHas(r, day);
    var k := LatestOfDay(observations, o, today - 90, day);
    if k.Some? {
      var i :| 0 <= i < |r| && r[i] == NonClearanceDay(day, observations[k.value].price.value);
      assert r[i].day == day;
      assert InHistory(observations[k.value], o, today);
    } else {
      assert forall j :: 0 <= j < |observations| && InHistory(observations[j], o, today) ==>
               CountsForHistory(observations[j], o, today - 90);
    }
  }

  lemma SameDaySets(observations: seq<Observation>, o: nat, today: int)
    ensures var r := DailyPrices(observations, o, today - 90, |observations|);
            Distinct(r) && DaySet(r) == HistoryDays(observations, o, today)
  {
    hide DailyPrices, DaySet, Distinct, HistoryDays;
    DaySeen(observations, o, today, 0);
    forall day
      ensures day in DaySet(DailyPrices(observations, o, today - 90, |observations|))
         <==> day in HistoryDays(observations, o, today)
    {
      DaySeen(observations, o, today, day);
    }
  }

  /** R1 exists if and only if the offer was seen, OK and off clearance, on 21 of the last
      ninety days, two of them 30 days apart. */
  lemma OwnHistoryExactly(t: Tables, o: nat, clock: Clock)
    ensures var days := HistoryDays(t.observations, o, clock.today);
            ResolveOwnHistory(t, o, clock).Some? <==> |days| >= 21 && FarApart(days)
  {
    hide ResolveOwnHistoryMedian, DailyPrices, HistoryDays, FarApart, DaySet, Distinct;
    var r := DailyPrices(t.observations, o, clock.today - 90, |t.observations|);
    SameDaySets(t.observations, o, clock.today);
    DistinctDays(r);
    FarExactly(r);
    OwnHistoryEvidence(r);
  }

  /** What the day was seen at last: its newest observation, of two made at once the later row. */
  ghost predicate LastOfDay(observations: seq<Observation>, o: nat, today: int, d: NonClearanceDay) {
    exists k :: 0 <= k < |observations| && InHistory(observations[k], o, today) && observations[k].dayEt == d.day
             && observations[k].price == Some(d.price) && NewestOfDay(observations, o, today, k)
  }

  ghost predicate NewestOfDay(observations: seq<Observation>, o: nat, today: int, k: nat)
    requires k < |observations|
  {
    forall j :: 0 <= j < |observations| && InHistory(observations[j], o, today) ==>
      observations[j].dayEt == observations[k].dayEt ==>
        observations[j].at < observations[k].at || (observations[j].at == observations[k].at && j <= k)
  }

  lemma DayIsLast(observations: seq<Observation>, o: nat, today: int, n: nat, d: NonClearanceDay)
    requires n <= |observations| && FromLatest(observations, o, today - 90, n, d)
    ensures LastOfDay(observations, o, today, d)
  {
    var k :| 0 <= k < n && IsLatest(observations, o, today - 90, k) && DayOf(observations[k]) == d;
    var day := observations[k].dayEt;
    assert LatestWhere(observations, (c: Observation) => CountsForHistory(c, o, today - 90) && c.dayEt == day)
        == Some(k);
    assert forall j :: 0 <= j < |observations| ==>
             (CountsForHistory(observations[j], o, today - 90) <==> InHistory(observations[j], o, today));
    assert NewestOfDay(observations, o, today, k);
  }

  /** R1 is the median of what each of these days was seen at last. */
  lemma OwnHistoryValue(t: Tables, o: nat, clock: Clock) returns (r: seq<NonClearanceDay>)
    ensures Distinct(r) && DaySet(r) == HistoryDays(t.observations, o, clock.today)
    ensures forall i :: 0 <= i < |r| ==> LastOfDay(t.observations, o, clock.today, r[i])
    ensures var own := ResolveOwnHistory(t, o, clock);
            own.Some? ==> r != [] && own.value.median == Median(Prices(r)) && own.value.observedDays == |r|
  {
    hide DailyPrices, HistoryDays, DaySet, Distinct, LastOfDay, FromLatest, Median, LatestOfDay;
    r := DailyPrices(t.observations, o, clock.today - 90, |t.observations|);
    SameDaySets(t.observations, o, clock.today);
    DailyPricesUpTo(t.observations, o, clock.today - 90, |t.observations|);
    forall i | 0 <= i < |r| ensures LastOfDay(t.observations, o, clock.today, r[i]) {
      assert FromLatest(t.observations, o, clock.today - 90, |t.observations|, r[i]);
      DayIsLast(t.observations, o, clock.today, |t.observations|, r[i]);
    }
  }

  // ---------------------------------------------------------------- R2 and U1

  /** What is asked: another NEW offer of the variant, seen in stock at most `age` ago; with
      `pack`, of that pack count, first party and without a barcode conflict. */
  datatype Ask = Ask(variantId: int, exclude: nat, now: Time, age: Time, pack: Option<int>)

  function QueryOf(a: Ask): NewOffersQuery {
    NewOffersQuery(a.variantId, a.exclude, a.now - a.age, a.pack)
  }

  /** An offer and an observation of it. */
  datatype Showing = Showing(offer: nat, obs: nat)

  predicate InRange(t: Tables, s: Showing) {
    && s.offer < |t.offers| && s.obs < |t.observations| && t.observations[s.obs].price.Some?
    && t.offers[s.offer].listingId < |t.listings| && t.offers[s.offer].sellerId < |t.sellers|
  }

  /** It is an answer to what is asked. */
  predicate Backs(t: Tables, a: Ask, s: Showing) {
    && InRange(t, s) && s.offer != a.exclude && t.offers[s.offer].condition == New
    && var l, seller, b := ListingOf(t, s.offer), t.sellers[t.offers[s.offer].sellerId], t.observations[s.obs];
       && l.variantId == Some(a.variantId)
       && (a.pack.Some? ==>
             && l.unitCount == a.pack && seller.sellerType == FirstParty
             && (t.offers[s.offer].listingId, a.variantId) !in t.conflicts)
       && b.offerId == s.offer && b.quality == Ok && b.availability == InStock && a.now - b.at <= a.age
  }

  /** The row that describes it: its retailer, time, price, price with shipping and listing. */
  predicate Describes(row: NewOfferRow, t: Tables, s: Showing) {
    && InRange(t, s) && row.listing == ListingOf(t, s.offer) && row.retailerId == row.listing.retailerId
    && var b := t.observations[s.obs];
       && row.at == b.at && Some(row.price) == b.price
       && row.landed == row.price + (if b.shipping.Some? then b.shipping.value else 0)
  }

  predicate SameRetailer(t: Tables, s: Showing, r: Showing) {
    InRange(t, s) && InRange(t, r) && ListingOf(t, s.offer).retailerId == ListingOf(t, r.offer).retailerId
  }

  /** The first is newer; of equally old ones, the older offer's and then the later row. */
  predicate Newer(t: Tables, s: Showing, r: Showing) {
    && InRange(t, s) && InRange(t, r)
    && var x, y := t.observations[s.obs].at, t.observations[r.obs].at;
       y < x || (y == x && (s.offer < r.offer || (s.offer == r.offer && r.obs <= s.obs)))
  }

  /** It is the newest that its retailer has to show. */
  ghost predicate Represents(t: Tables, a: Ask, s: Showing) {
    Backs(t, a, s) && forall r :: Backs(t, a, r) && SameRetailer(t, s, r) ==> Newer(t, s, r)
  }

  lemma BacksMeans(t: Tables, a: Ask, s: Showing)
    requires s.offer < |t.offers| && s.obs < |t.observations|
    ensures Backs(t, a, s)
       <==> Qualifies(t, QueryOf(a), s.offer) && IsRecent(t.observations[s.obs], s.offer, QueryOf(a).since)
  {
  }

  /** The row of an offer describes its newest answer. */
  lemma RowExactly(t: Tables, a: Ask, j: nat) returns (s: Showing)
    requires j < |t.offers|
    ensures var row := RecentRow(t, QueryOf(a), j);
            && (row.None? ==> forall r: Showing :: r.offer == j ==> !Backs(t, a, r))
            && (row.Some? ==>
                  && s.offer == j && Backs(t, a, s) && Describes(row.value, t, s)
                  && forall r: Showing :: r.offer == j && Backs(t, a, r) ==> Newer(t, s, r))
  {
    hide Backs, IsRecent, RowOfLatest;
    var q := QueryOf(a);
    forall r: Showing | r.offer == j && r.obs < |t.observations|
      ensures Backs(t, a, r) <==> Qualifies(t, q, j) && IsRecent(t.observations[r.obs], j, q.since)
    {
      BacksMeans(t, a, r);
    }
    forall r: Showing | Backs(t, a, r) ensures InRange(t, r) { BacksInRange(t, a, r); }
    var k := LatestWhere(t.observations, (b: Observation) => IsRecent(b, j, q.since));
    s := Showing(j, if k.Some? then k.value else 0);
  }

  lemma BacksInRange(t: Tables, a: Ask, s: Showing)
    requires Backs(t, a, s)
    ensures InRange(t, s)
  {
  }

  lemma RepresentsExactly(t: Tables, a: Ask, s: Showing)
    requires Represents(t, a, s)
    ensures s.offer < |t.offers| && RepresentsRetailer(t, QueryOf(a), s.offer)
    ensures RecentRow(t, QueryOf(a), s.offer).Some? && Describes(RecentRow(t, QueryOf(a), s.offer).value, t, s)
  {
    hide Backs, RecentRow;
    var q := QueryOf(a);
    BacksInRange(t, a, s);
    var own := RowExactly(t, a, s.offer);
    assert own == s by { assert Newer(t, own, s) && Newer(t, s, own); }
    var row := RecentRow(t, q, s.offer).value;
    forall i | 0 <= i < |t.offers| && i != s.offer
      ensures var other := RecentRow(t, q, i);
              other.Some? && other.value.retailerId == row.retailerId ==>
                other.value.at < row.at || (other.value.at == row.at && s.offer < i)
    {
      var r := RowExactly(t, a, i);
      if RecentRow(t, q, i).Some? && RecentRow(t, q, i).value.retailerId == row.retailerId {
        assert SameRetailer(t, s, r);
        assert Newer(t, s, r);
      }
    }
  }

  lemma RepresentativeShows(t: Tables, a: Ask, j: nat) returns (s: Showing)
    requires j < |t.offers| && RepresentsRetailer(t, QueryOf(a), j)
    ensures Represents(t, a, s) && s.offer == j && Describes(RecentRow(t, QueryOf(a), j).value, t, s)
  {
    hide Backs, RecentRow;
    s := RowExactly(t, a, j);
    forall r | Backs(t, a, r) && SameRetailer(t, s, r) ensures Newer(t, s, r) {
      var newest := RowExactly(t, a, r.offer);
      assert Newer(t, newest, r);
    }
  }

  lemma SameDescription(t: Tables, s: Showing, x: NewOfferRow, y: NewOfferRow)
    requires Describes(x, t, s) && Describes(y, t, s)
    ensures x == y
  {
  }

  /** The rows looked up are exactly those of the retailers' newest answers. */
  lemma RowsExactly(t: Tables, a: Ask, row: NewOfferRow)
    ensures row in RecentRows(t, QueryOf(a), |t.offers|) <==> exists s :: Represents(t, a, s) && Describes(row, t, s)
  {
    hide Represents, RecentRow, RecentRows, RepresentsRetailer, Describes, RowsOk, RowFrom;
    var rows := RecentRows(t, QueryOf(a), |t.offers|);
    if row in rows {
      var s := RowShown(t, a, row);
    }
    forall s | Represents(t, a, s) && Describes(row, t, s) ensures row in rows { ShownRow(t, a, row, s); }
  }

  lemma RowShown(t: Tables, a: Ask, row: NewOfferRow) returns (s: Showing)
    requires row in RecentRows(t, QueryOf(a), |t.offers|)
    ensures Represents(t, a, s) && Describes(row, t, s)
  {
    hide Represents, RecentRow, RecentRows, RepresentsRetailer, Describes;
    var rows := RecentRows(t, QueryOf(a), |t.offers|);
    RowsUpTo(t, QueryOf(a), |t.offers|);
    var i :| 0 <= i < |rows| && rows[i] == row;
    assert RowFrom(t, QueryOf(a), |t.offers|, rows[i]);
    var j :| 0 <= j < |t.offers| && RepresentsRetailer(t, QueryOf(a), j) && RecentRow(t, QueryOf(a), j) == Some(row);
    s := RepresentativeShows(t, a, j);
  }

  lemma ShownRow(t: Tables, a: Ask, row: NewOfferRow, s: Showing)
    requires Represents(t, a, s) && Describes(row, t, s)
    ensures row in RecentRows(t, QueryOf(a), |t.offers|)
  {
    hide Represents, RecentRow, RecentRows, RepresentsRetailer, Describes;
    RowsUpTo(t, QueryOf(a), |t.offers|);
    RepresentsExactly(t, a, s);
    SameDescription(t, s, row, RecentRow(t, QueryOf(a), s.offer).value);
  }

  /** Where there is an answer, its retailer is represented. */
  lemma SomeoneRepresents(t: Tables, a: Ask, s: Showing)
    requires Backs(t, a, s)
    ensures RecentRows(t, QueryOf(a), |t.offers|) != []
  {
    hide Backs, RecentRow, RecentRows, RepresentsRetailer;
    BacksInRange(t, a, s);
    var own := RowExactly(t, a, s.offer);
    var row := OneRowPerRetailer(t, QueryOf(a), s.offer);
  }

  // ---------------------------------------------------------------- U1

  /** U1 exists if and only if another NEW offer of the variant was seen in stock in the last
      48 hours; it is the cheapest, with shipping, of what the retailers last showed. */
  lemma CurrentNewExactly(t: Tables, variantId: int, o: nat, clock: Clock)
    ensures var a := Ask(variantId, o, clock.now, 48 * HOUR, None);
            var r := ResolveCurrentNew(t, Some(variantId), o, clock);
            && (r.Some? <==> exists s :: Backs(t, a, s))
            && (r.Some? ==> exists s :: Represents(t, a, s) && Describes(r.value, t, s))
            && forall s, row :: Represents(t, a, s) && Describes(row, t, s) ==> r.Some? && r.value.landed <= row.landed
  {
    hide Backs, Describes, RecentRow, RecentRows, RepresentsRetailer, Represents;
    var a := Ask(variantId, o, clock.now, 48 * HOUR, None);
    var r := ResolveCurrentNew(t, Some(variantId), o, clock);
    forall s | Backs(t, a, s) ensures r.Some? { SomeoneRepresents(t, a, s); }
    forall s, row | Represents(t, a, s) && Describes(row, t, s) ensures r.Some? && r.value.landed <= row.landed {
      ShownRow(t, a, row, s);
    }
    if r.Some? {
      var s := RowShown(t, a, r.value);
      RepresentsBacks(t, a, s);
    }
  }

  lemma RepresentsBacks(t: Tables, a: Ask, s: Showing)
    requires Represents(t, a, s)
    ensures Backs(t, a, s)
  {
  }

  // ---------------------------------------------------------------- R2

  /** The newest answer of its retailer, of a listing matched by barcode, by manufacturer number
      or by hand. */
  ghost predicate Trusted(t: Tables, a: Ask, s: Showing, row: NewOfferRow) {
    Represents(t, a, s) && Describes(row, t, s) && row.listing.matchStatus in {AutoGtin, AutoMpn, Manual}
  }

  function CandidateOf(row: NewOfferRow): CrossRetailer {
    CrossRetailer(row.retailerId, row.price, row.listing.matchStatus, row.listing.variantKey, row.listing.unitCount)
  }

  function CandidatesOf(rows: seq<NewOfferRow>): seq<CrossRetailer> {
    seq(|rows|, i requires 0 <= i < |rows| => CandidateOf(rows[i]))
  }

  lemma ResolveFromRows(t: Tables, o: nat, l: Listing, clock: Clock)
    requires l.variantId.Some? && l.unitCount.Some?
    ensures var a := Ask(l.variantId.value, o, clock.now, 7 * DAY, l.unitCount);
            ResolveCrossRetailer(t, o, l, GroupNew, clock)
              == ResolveCrossRetailerNew(CandidatesOf(RecentRows(t, QueryOf(a), |t.offers|)))
  {
    hide RecentRows, ResolveCrossRetailerNew, RecentRow;
    var rows := RecentRows(t, QueryOf(Ask(l.variantId.value, o, clock.now, 7 * DAY, l.unitCount)), |t.offers|);
    assert CandidatesOf(rows) == seq(|rows|, i requires 0 <= i < |rows| =>
        CrossRetailer(rows[i].retailerId, rows[i].price, rows[i].listing.matchStatus, rows[i].listing.variantKey,
                      rows[i].listing.unitCount));
  }

  /** R2 exists if and only if the offer is NEW, its variant and pack count are known, and some
      retailer's newest answer within seven days can be trusted; it is the cheapest of those. */
  lemma CrossRetailerFrom(t: Tables, o: nat, l: Listing, group: ConditionGroup, clock: Clock)
    ensures var r := ResolveCrossRetailer(t, o, l, group, clock);
            if l.variantId.None? || l.unitCount.None? || group != GroupNew then r.None? else
              var a := Ask(l.variantId.value, o, clock.now, 7 * DAY, l.unitCount);
              && (r.Some? ==> exists s, row :: Trusted(t, a, s, row) && r.value == CandidateOf(row))
              && forall s, row :: Trusted(t, a, s, row) ==> r.Some? && r.value.price <= row.price
  {
    hide Represents, Describes, RecentRow, RecentRows, RepresentsRetailer;
    if !(l.variantId.None? || l.unitCount.None? || group != GroupNew) {
      var a := Ask(l.variantId.value, o, clock.now, 7 * DAY, l.unitCount);
      var rows := RecentRows(t, QueryOf(a), |t.offers|);
      ResolveFromRows(t, o, l, clock);
      CheapestTrusted(t, a, rows);
    }
  }

  lemma CheapestTrusted(t: Tables, a: Ask, rows: seq<NewOfferRow>)
    requires rows == RecentRows(t, QueryOf(a), |t.offers|)
    ensures var r := ResolveCrossRetailerNew(CandidatesOf(rows));
            && (r.Some? ==> exists s, row :: Trusted(t, a, s, row) && r.value == CandidateOf(row))
            && forall s, row :: Trusted(t, a, s, row) ==> r.Some? && r.value.price <= row.price
  {
    hide Represents, Describes, RecentRow, RecentRows, RepresentsRetailer;
    var candidates := CandidatesOf(rows);
    var r := ResolveCrossRetailerNew(candidates);
    forall s, row | Trusted(t, a, s, row) ensures r.Some? && r.value.price <= row.price {
      ShownRow(t, a, row, s);
      var i :| 0 <= i < |rows| && rows[i] == row;
      assert Verifiable(candidates[i].matchStatus);
    }
    if r.Some? {
      var i :| 0 <= i < |candidates| && candidates[i] == r.value;
      var s := RowShown(t, a, rows[i]);
      assert Trusted(t, a, s, rows[i]);
    }
  }

  // ---------------------------------------------------------------- the verified reference

  /** The verified reference of an offer is the lower of its R1 and its R2, under its own kind,
      and is missing exactly when both are. */
  lemma VerifiedExactly(t: Tables, o: nat, clock: Clock)
    requires o < |t.offers| && t.offers[o].listingId < |t.listings|
    ensures var own := ResolveOwnHistory(t, o, clock);
            var cross := ResolveCrossRetailer(t, o, ListingOf(t, o), GroupOf(t.offers[o].condition), clock);
            var r := ResolveVerifiedReferenceForOffer(t, o, clock);
            && (r.None? <==> own.None? && cross.None?)
            && (r.Some? && own.Some? ==> r.value.cents <= own.value.median)
            && (r.Some? && cross.Some? ==> r.value.cents <= cross.value.price)
            && (r.Some? ==>
                  || (own.Some? && r.value == VerifiedReference(OwnHistoryMedian90d, own.value.median, None, None))
                  || (cross.Some? && r.value == VerifiedReference(CrossRetailerNew, cross.value.price,
                                                                  cross.value.variantKey, cross.value.unitCount)))
  {
    hide ResolveOwnHistory, ResolveCrossRetailer;
  }
}
