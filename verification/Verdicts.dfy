/** The verdict an ingest stores, said of the fetch and of the offer's own last OK price; and
    what it means for every OK observation of a run. */
module Verdicts {
  import opened Core
  import opened Validate
  import opened Schema
  import opened DealRules
  import opened EnrollRules
  import opened Steps
  import opened Lifecycle
  import opened Runs

  // ---------------------------------------------------------------- the last OK price

  /** Observation j is the offer's newest OK one; of two made at once, the later row. */
  ghost predicate IsNewestOk(observations: seq<Observation>, o: nat, j: nat) {
    && j < |observations| && IsOkOf(observations[j], o)
    && forall i :: 0 <= i < |observations| && IsOkOf(observations[i], o) ==>
         observations[i].at < observations[j].at || (observations[i].at == observations[j].at && i <= j)
  }

  /** The offer's last OK price, if it has one. */
  ghost predicate LastOk(observations: seq<Observation>, o: nat, last: Option<int>) {
    match last
    case None => forall i :: 0 <= i < |observations| ==> !IsOkOf(observations[i], o)
    case Some(_) =>
      exists j :: 0 <= j < |observations| && IsNewestOk(observations, o, j) && observations[j].price == last
  }

  lemma LastOkIs(observations: seq<Observation>, o: nat, last: Option<int>)
    requires LastOk(observations, o, last)
    ensures LastOkPrice(observations, o) == last
  {
    if last.Some? {
      var j :| 0 <= j < |observations| && IsNewestOk(observations, o, j) && observations[j].price == last;
      var k := LatestWhere(observations, (b: Observation) => IsOkOf(b, o));
      assert k == Some(j);
    }
  }

  // ---------------------------------------------------------------- the guards in integers

  function Abs(n: int): nat {
    if n < 0 then -n else n
  }

  /** The price is within 5 % of the last one of n times the last price, or of an n-th of it. */
  predicate NearPack(price: int, last: int, n: int) {
    20 * Abs(n * price - last) <= Abs(n) * last || 20 * Abs(price - n * last) <= last
  }

  /** A move by the recorded pack count or, without one, by a usual one. */
  predicate PackMove(price: int, last: int, units: Option<int>) {
    if units.Some? && units.value != 0 then NearPack(price, last, units.value)
    else exists n :: n in {3, 4, 5, 6, 10, 12, 20, 25, 50} && NearPack(price, last, n)
  }

  lemma SameSign(k: real, y: real)
    requires k > 0.0
    ensures k * y >= 0.0 <==> y >= 0.0
  {
  }

  lemma IntOrder(a: int, b: int)
    ensures a <= b <==> a as real <= b as real
  {
  }

  /** Comparing a quotient with a bound. */
  lemma AtMost(k: real, quotient: real, bound: real, product: real)
    requires k > 0.0 && product == k * quotient
    ensures quotient <= bound <==> product <= k * bound
    ensures bound <= quotient <==> k * bound <= product
  {
    SameSign(k, bound - quotient);
    SameSign(k, quotient - bound);
    assert k * (bound - quotient) == k * bound - product;
    assert k * (quotient - bound) == product - k * bound;
  }

  lemma MoveExactly(price: int, last: int)
    requires last > 0
    ensures MovedFar(price, last) <==> !(35 * last <= 100 * price <= 300 * last)
  {
    var p, l := price as real, last as real;
    var ratio := (p / l) * 100.0;
    assert l * (p / l) == p;
    var product := 100.0 * p;
    assert product == l * ratio;
    AtMost(l, ratio, 35.0, product);
    AtMost(l, ratio, 300.0, product);
    IntOrder(35 * last, 100 * price);
    IntOrder(100 * price, 300 * last);
  }

  lemma TwentiethReal(k: real, gap: real, difference: real)
    requires k > 0.0 && difference == k * gap
    ensures -0.05 <= gap <= 0.05 <==> -k <= 20.0 * difference <= k
  {
    AtMost(k, gap, 0.05, difference);
    AtMost(k, gap, -0.05, difference);
    assert k * 0.05 * 20.0 == k && k * -0.05 * 20.0 == -k;
  }

  /** A gap of at most a twentieth, in integers. */
  lemma Twentieth(difference: int, k: int, gap: real)
    requires k > 0 && (k as real) * gap == difference as real
    ensures -0.05 <= gap <= 0.05 <==> 20 * Abs(difference) <= k
  {
    TwentiethReal(k as real, gap, difference as real);
    IntOrder(20 * difference, k);
    IntOrder(-k, 20 * difference);
  }

  /** Whole numbers: |price/last - n| <= 0.05. */
  lemma NearWhole(price: int, last: int, n: int)
    requires last > 0
    ensures Near(price as real / last as real, n as real) <==> 20 * Abs(price - n * last) <= last
  {
    var p, l, m := price as real, last as real, n as real;
    assert l * (p / l) == p;
    assert l * (p / l - m) == p - m * l;
    assert (price - n * last) as real == p - m * l;
    Twentieth(price - n * last, last, p / l - m);
  }

  lemma Distribute(n: real, l: real, q: real, r: real)
    requires n * r == 1.0
    ensures (n * l) * (q - r) == n * (l * q) - l
  {
    assert (n * l) * (q - r) == (n * l) * q - (n * l) * r;
    assert (n * l) * q == n * (l * q);
    assert (n * l) * r == (n * r) * l;
  }

  /** Fractions: |price/last - 1/n| <= 0.05. */
  lemma NearFraction(price: int, last: int, n: int)
    requires last > 0 && n != 0
    ensures Near(price as real / last as real, 1.0 / n as real) <==> 20 * Abs(n * price - last) <= Abs(n) * last
  {
    var p, l, m := price as real, last as real, n as real;
    var q, r := p / l, 1.0 / m;
    assert l * q == p && m * r == 1.0;
    Distribute(m, l, q, r);
    ProductAsReal(n, last);
    ProductAsReal(n, price);
    if n > 0 {
      assert n * last > 0;
      Twentieth(n * price - last, n * last, q - r);
    } else {
      assert -(n * last) > 0;
      assert (-(m * l)) * (q - r) == -(m * p - l);
      Twentieth(-(n * price - last), -(n * last), q - r);
    }
  }

  lemma ProductAsReal(a: int, b: int)
    ensures (a * b) as real == a as real * b as real
  {
  }

  predicate MovedBy(price: int, last: int, n: int)
    requires last != 0 && n != 0
  {
    var ratio := price as real / last as real;
    Near(ratio, 1.0 / n as real) || Near(ratio, n as real)
  }

  lemma PackExactly(price: int, last: int, units: Option<int>)
    requires last > 0
    ensures LooksLikePack(price, last, units) <==> PackMove(price, last, units)
  {
    hide Near, NearPack;
    var packs := {3, 4, 5, 6, 10, 12, 20, 25, 50};
    assert forall n :: n in packs <==> n in GUESSED_PACKS;
    if units.Some? && units.value != 0 {
      NearExactly(price, last, units.value);
    } else {
      forall i | 0 <= i < |GUESSED_PACKS|
        ensures GUESSED_PACKS[i] in packs
        ensures MovedBy(price, last, GUESSED_PACKS[i]) <==> NearPack(price, last, GUESSED_PACKS[i])
      {
        NearExactly(price, last, GUESSED_PACKS[i]);
      }
      forall n | n in packs && NearPack(price, last, n) ensures LooksLikePack(price, last, units) {
        var i :| 0 <= i < |GUESSED_PACKS| && GUESSED_PACKS[i] == n;
      }
    }
  }

  lemma NearExactly(price: int, last: int, n: int)
    requires last > 0 && n != 0
    ensures MovedBy(price, last, n) <==> NearPack(price, last, n)
  {
    NearWhole(price, last, n);
    NearFraction(price, last, n);
  }

  // ---------------------------------------------------------------- the stored verdict

  predicate InBand(bands: Bands, category: string, price: int) {
    category in bands ==>
      && (bands[category].floor.Some? ==> bands[category].floor.value <= price)
      && (bands[category].ceiling.Some? ==> price <= bands[category].ceiling.value)
  }

  /** The pack count is the listing's or, where neither the listing nor the offer records
      one, the price did not move by one. */
  predicate UnitsAgree(f: Fetch, offer: ParsedOffer, price: int, last: Option<int>) {
    var listed := if f.offers == [] then None else f.offers[0].unitCount;
    if listed.Some? then offer.unitCount.None? || offer.unitCount == listed
    else last.None? || !PackMove(price, last.value, offer.unitCount)
  }

  /** What an OK fetch must show, against the offer's last OK price. */
  predicate Passes(f: Fetch, offer: ParsedOffer, last: Option<int>) {
    && offer.price.Some?
    && var price := offer.price.value;
       && price > 0 && InBand(f.bands, f.category, price)
       && (last.Some? ==> 35 * last.value <= 100 * price <= 300 * last.value)
       && !(offer.onClearance && offer.claimed.Some? && offer.claimed.value <= price)
       && UnitsAgree(f, offer, price, last)
  }

  /** A stored observation is the parse, under a verdict that is OK exactly when it passes
      against the offer's own last OK price, and that names a large move exactly when there
      was one. */
  lemma StoredVerdict(t: Tables, f: Fetch, offer: ParsedOffer, listingId: nat, last: Option<int>)
    requires listingId < |t.listings| && f.persistedUrl.Some? && ObserveOffer(t, f, offer, listingId).Stored?
    requires LastOk(t.observations, ObserveOffer(t, f, offer, listingId).offerId, last)
    requires last.Some? ==> last.value > 0
    ensures var r := ObserveOffer(t, f, offer, listingId);
            && (r.verdict.quality == Rejected <==> offer.price.None? || offer.price.value <= 0)
            && (r.verdict.quality == Ok <==> Passes(f, offer, last))
            && (LargeMove in r.verdict.reasons <==>
                  offer.price.Some? && offer.price.value > 0 && last.Some?
                  && !(35 * last.value <= 100 * offer.price.value <= 300 * last.value))
            && r.tables.observations == t.observations
                 + [Observation(r.offerId, f.at, f.dayEt, offer.price, offer.shipping, offer.claimed, offer.onClearance,
                                offer.availability, offer.unitCount, Some(f.variantKey), r.verdict.quality,
                                f.snapshotRef)]
  {
    hide DealStep, VerdictOf;
    VerdictExactly(t, f, offer, ObserveOffer(t, f, offer, listingId).offerId, last);
    var (t1, o) := WithOffer(t, f, offer, listingId);
    assert VerdictOf(t, f, offer, o) == ObserveOffer(t, f, offer, listingId).verdict;
  }

  lemma VerdictExactly(t: Tables, f: Fetch, offer: ParsedOffer, o: nat, last: Option<int>)
    requires LastOk(t.observations, o, last) && (last.Some? ==> last.value > 0)
    ensures var v := VerdictOf(t, f, offer, o);
            && (v.quality == Rejected <==> offer.price.None? || offer.price.value <= 0)
            && (v.quality == Ok <==> Passes(f, offer, last))
            && (LargeMove in v.reasons <==>
                  offer.price.Some? && offer.price.value > 0 && last.Some?
                  && !(35 * last.value <= 100 * offer.price.value <= 300 * last.value))
  {
    hide MovedFar, LooksLikePack, PackMove, Reasons;
    LastOkIs(t.observations, o, last);
    var input := ObservationInput(offer.price, true, f.category, offer.claimed, offer.onClearance, offer.unitCount,
                                  Some(f.variantKey), true, f.page == UsedListing);
    var ctx := ObservationContext(last, Some(f.variantKey), ListingUnitCount(f), None, None, None, None);
    VerdictMeaning(input, ctx, f.bands);
    if offer.price.Some? && offer.price.value > 0 {
      if last.Some? {
        MoveExactly(offer.price.value, last.value);
        PackExactly(offer.price.value, last.value, offer.unitCount);
      }
      NoReasonExactly(input, ctx, f.bands);
      assert forall r :: Fires(input, ctx, f.bands, r) ==>
        r == OutOfBand || r == LargeMove || r == ClaimedNotAbovePrice || r == UnitMismatch;
      assert Fires(input, ctx, f.bands, OutOfBand) <==> !InBand(f.bands, f.category, offer.price.value);
      assert Fires(input, ctx, f.bands, ClaimedNotAbovePrice) <==>
        offer.onClearance && offer.claimed.Some? && offer.claimed.value <= offer.price.value;
      assert Fires(input, ctx, f.bands, LargeMove) <==>
        last.Some? && !(35 * last.value <= 100 * offer.price.value <= 300 * last.value);
      assert Fires(input, ctx, f.bands, UnitMismatch) <==> !UnitsAgree(f, offer, offer.price.value, last);
    }
    ReasonsExactly(input, ctx, f.bands, LargeMove);
  }

  lemma NoReasonExactly(obs: ObservationInput, ctx: ObservationContext, bands: Bands)
    ensures ValidateObservation(obs, ctx, bands).reasons == [] <==> forall r :: !Fires(obs, ctx, bands, r)
  {
    var reasons := ValidateObservation(obs, ctx, bands).reasons;
    forall r ensures r in reasons <==> Fires(obs, ctx, bands, r) { ReasonsExactly(obs, ctx, bands, r); }
    assert reasons != [] ==> reasons[0] in reasons;
  }

  // ---------------------------------------------------------------- every OK observation of a run

  /** If observation k is OK and j is the offer's newest OK one before it, the price of k lies
      within 35 % and 300 % of that of j. */
  ghost predicate MoveOk(observations: seq<Observation>, j: nat, k: nat)
    requires j < k < |observations|
  {
    observations[k].quality == Ok && IsNewestOk(observations[..k], observations[k].offerId, j) ==>
      && observations[k].price.Some?
      && 35 * observations[j].price.value <= 100 * observations[k].price.value <= 300 * observations[j].price.value
  }

  ghost predicate MovesOk(observations: seq<Observation>) {
    forall j, k :: 0 <= j < k < |observations| ==> MoveOk(observations, j, k)
  }

  lemma MovesAppend(observations: seq<Observation>, b: Observation, last: Option<int>)
    requires MovesOk(observations) && LastOk(observations, b.offerId, last)
    requires b.quality == Ok ==>
               b.price.Some? && (last.Some? ==> 35 * last.value <= 100 * b.price.value <= 300 * last.value)
    ensures MovesOk(observations + [b])
  {
    var more := observations + [b];
    forall j, k | 0 <= j < k < |more| ensures MoveOk(more, j, k) {
      if k < |observations| {
        assert more[..k] == observations[..k] && MoveOk(observations, j, k);
      } else {
        assert more[..k] == observations;
        if b.quality == Ok && IsNewestOk(observations, b.offerId, j) { OneNewest(observations, b.offerId, j, last); }
      }
    }
  }

  lemma OneNewest(observations: seq<Observation>, o: nat, j: nat, last: Option<int>)
    requires IsNewestOk(observations, o, j) && LastOk(observations, o, last)
    ensures last == observations[j].price
  {
    LastOkIs(observations, o, last);
    LastOkIs(observations, o, observations[j].price);
  }

  lemma LastOkExists(observations: seq<Observation>, o: nat) returns (last: Option<int>)
    ensures LastOk(observations, o, last)
    ensures last.Some? ==>
              exists j :: 0 <= j < |observations| && IsOkOf(observations[j], o) && observations[j].price == last
  {
    var k := LatestWhere(observations, (b: Observation) => IsOkOf(b, o));
    if k.None? {
      last := None;
    } else {
      last := observations[k.value].price;
      assert IsNewestOk(observations, o, k.value);
    }
  }

  lemma ObserveKeepsMoves(t: Tables, f: Fetch, offer: ParsedOffer)
    requires DealsOk(t) && MovesOk(t.observations)
    ensures MovesOk(ObserveStep(t, f, offer).observations)
  {
    hide ObserveOffer, MovesOk, Passes;
    var l := FindListing(t.listings, f.retailerId, f.sku);
    if l.Some? && f.persistedUrl.Some? {
      var r := ObserveOffer(t, f, offer, l.value);
      SameOrStored(t, f, offer, l.value);
      if r.Stored? {
        var last := LastOkExists(t.observations, r.offerId);
        if last.Some? { OkPricesPositive(t, r.offerId, last); }
        StoredVerdict(t, f, offer, l.value, last);
        if Passes(f, offer, last) { PassesMeans(f, offer, last); }
        MovesAppend(t.observations, r.tables.observations[|t.observations|], last);
      }
    }
  }

  lemma PassesMeans(f: Fetch, offer: ParsedOffer, last: Option<int>)
    requires Passes(f, offer, last)
    ensures offer.price.Some? && (last.Some? ==> 35 * last.value <= 100 * offer.price.value <= 300 * last.value)
  {
  }

  lemma SameOrStored(t: Tables, f: Fetch, offer: ParsedOffer, l: nat)
    requires l < |t.listings| && f.persistedUrl.Some?
    ensures var r := ObserveOffer(t, f, offer, l); r.Replay? ==> r.tables.observations == t.observations
  {
  }

  lemma OkPricesPositive(t: Tables, o: nat, last: Option<int>)
    requires DealsOk(t) && last.Some?
    requires exists j :: 0 <= j < |t.observations| && IsOkOf(t.observations[j], o) && t.observations[j].price == last
    ensures last.value > 0
  {
    var j :| 0 <= j < |t.observations| && IsOkOf(t.observations[j], o) && t.observations[j].price == last;
    assert ObservationOk(t, t.observations[j]);
  }

  lemma ApplyKeepsMoves(t: Tables, step: Step)
    requires DealsOk(t) && MovesOk(t.observations)
    ensures MovesOk(Apply(t, step).observations)
  {
    hide ObserveStep, StoreListingAndTask, EnrollItem, MovesOk;
    match step
    case Observe(f, offer) => ObserveKeepsMoves(t, f, offer);
    case StoreListing(f) => if f.persistedUrl.Some? { Sidelong(t, f); }
    case Enroll(sweep, row) => EnrollAside(t, sweep, row);
    case _ =>
  }

  lemma Sidelong(t: Tables, f: Fetch)
    requires f.persistedUrl.Some?
    ensures StoreListingAndTask(t, f).observations == t.observations
  {
  }

  lemma {:induction false} RunKeepsMoves(t: Tables, steps: seq<Step>)
    requires DealsOk(t) && MovesOk(t.observations)
    ensures MovesOk(Run(t, steps).observations)
    decreases steps
  {
    hide Apply, DealsOk, MovesOk;
    if steps != [] {
      ApplyKeepsMoves(t, steps[0]);
      ApplyKeeps(t, steps[0]);
      RunKeepsMoves(Apply(t, steps[0]), steps[1..]);
    }
  }
}
