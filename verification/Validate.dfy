/** Observation quality guards (fpt/pipeline/validate.py), over exact rationals. */
module Validate {
  import opened Core

  datatype Band = Band(floor: Option<int>, ceiling: Option<int>)
  type Bands = map<string, Band>

  datatype Quality = Ok | Suspect | Rejected

  datatype Reason =
    | InvalidPriceOrCurrency | OutOfBand | LargeMove | ClaimedNotAbovePrice | UnitMismatch
    | VariantIdentityChanged | VariantCollapse | PriceFlattening | ConditionUnknown

  datatype ObservationInput = ObservationInput(
    price: Option<int>, isUsd: bool, category: string, claimed: Option<int>, onClearance: bool,
    unitCount: Option<int>, variantKey: Option<string>, conditionMapped: bool, isUsedPage: bool)

  datatype ObservationContext = ObservationContext(
    lastOkPrice: Option<int>,
    listingVariantKey: Option<string>, listingUnitCount: Option<int>,
    previousVariants: Option<int>, currentVariants: Option<int>,
    previousPrices: Option<int>, currentPrices: Option<int>)

  datatype Verdict = Verdict(quality: Quality, reasons: seq<Reason>)

  const LARGE_MOVE_MIN: real := 35.0
  const LARGE_MOVE_MAX: real := 300.0
  const UNIT_TOLERANCE: real := 0.05
  const GUESSED_PACKS: seq<int> := [3, 4, 5, 6, 10, 12, 20, 25, 50]
  const COLLAPSE_PCT: real := 70.0

  function BandOf(bands: Bands, category: string): Band {
    if category in bands then bands[category] else Band(None, None)
  }

  predicate OutsideBand(bands: Bands, category: string, price: int) {
    var band := BandOf(bands, category);
    (band.floor.Some? && price < band.floor.value) || (band.ceiling.Some? && price > band.ceiling.value)
  }

  predicate MovedFar(price: int, last: int)
    requires last != 0
  {
    var ratioPct := (price as real / last as real) * 100.0;
    ratioPct < LARGE_MOVE_MIN || ratioPct > LARGE_MOVE_MAX
  }

  predicate Near(ratio: real, candidate: real) {
    -UNIT_TOLERANCE <= ratio - candidate <= UNIT_TOLERANCE
  }

  /** The price moved by a factor that is a pack count or its inverse. */
  predicate LooksLikePack(price: int, last: int, unitCount: Option<int>)
    requires last != 0
  {
    var ratio := price as real / last as real;
    if unitCount.Some? && unitCount.value != 0 then
      Near(ratio, 1.0 / unitCount.value as real) || Near(ratio, unitCount.value as real)
    else
      exists i :: 0 <= i < |GUESSED_PACKS|
               && (Near(ratio, 1.0 / GUESSED_PACKS[i] as real) || Near(ratio, GUESSED_PACKS[i] as real))
  }

  predicate UnitsDisagree(obs: ObservationInput, ctx: ObservationContext, price: int) {
    if ctx.listingUnitCount.Some? && obs.unitCount.Some? then obs.unitCount != ctx.listingUnitCount
    else
      && ctx.listingUnitCount.None? && Truthy(ctx.lastOkPrice)
      && LooksLikePack(price, ctx.lastOkPrice.value, obs.unitCount)
  }

  predicate Collapsed(ctx: ObservationContext) {
    && ctx.previousVariants.Some? && ctx.currentVariants.Some? && ctx.previousVariants.value > 0
    && var before, now := ctx.previousVariants.value as real, ctx.currentVariants.value as real;
       now < before * 0.5 || ((before - now) / before) * 100.0 >= COLLAPSE_PCT
  }

  function When(raised: bool, reason: Reason): seq<Reason> {
    if raised then [reason] else []
  }

  function Reasons(obs: ObservationInput, ctx: ObservationContext, bands: Bands, price: int): seq<Reason> {
    When(OutsideBand(bands, obs.category, price), OutOfBand)
    + When(Truthy(ctx.lastOkPrice) && MovedFar(price, ctx.lastOkPrice.value), LargeMove)
    + When(obs.onClearance && obs.claimed.Some? && obs.claimed.value <= price, ClaimedNotAbovePrice)
    + When(UnitsDisagree(obs, ctx, price), UnitMismatch)
    + When(ctx.listingVariantKey.Some? && obs.variantKey.Some? && obs.variantKey != ctx.listingVariantKey,
           VariantIdentityChanged)
    + When(Collapsed(ctx), VariantCollapse)
    + When(ctx.previousPrices.Some? && ctx.previousPrices.value >= 3 && ctx.currentPrices == Some(1), PriceFlattening)
    + When(!obs.conditionMapped && !obs.isUsedPage, ConditionUnknown)
  }

  predicate Unusable(obs: ObservationInput) {
    obs.price.None? || obs.price.value <= 0 || !obs.isUsd
  }

  function ValidateObservation(obs: ObservationInput, ctx: ObservationContext, bands: Bands): Verdict {
    if Unusable(obs) then Verdict(Rejected, [InvalidPriceOrCurrency]) else
      var reasons := Reasons(obs, ctx, bands, obs.price.value);
      Verdict(if reasons == [] then Ok else Suspect, reasons)
  }

  /** The guard behind each reason. */
  predicate Fires(obs: ObservationInput, ctx: ObservationContext, bands: Bands, reason: Reason) {
    if Unusable(obs) then reason == InvalidPriceOrCurrency else
      var price := obs.price.value;
      match reason
      case InvalidPriceOrCurrency => false
      case OutOfBand => OutsideBand(bands, obs.category, price)
      case LargeMove => Truthy(ctx.lastOkPrice) && MovedFar(price, ctx.lastOkPrice.value)
      case ClaimedNotAbovePrice => obs.onClearance && obs.claimed.Some? && obs.claimed.value <= price
      case UnitMismatch => UnitsDisagree(obs, ctx, price)
      case VariantIdentityChanged =>
        ctx.listingVariantKey.Some? && obs.variantKey.Some? && obs.variantKey != ctx.listingVariantKey
      case VariantCollapse => Collapsed(ctx)
      case PriceFlattening => ctx.previousPrices.Some? && ctx.previousPrices.value >= 3 && ctx.currentPrices == Some(1)
      case ConditionUnknown => !obs.conditionMapped && !obs.isUsedPage
  }

  /** A verdict names exactly the guards that fired. */
  lemma ReasonsExactly(obs: ObservationInput, ctx: ObservationContext, bands: Bands, reason: Reason)
    ensures reason in ValidateObservation(obs, ctx, bands).reasons <==> Fires(obs, ctx, bands, reason)
  {
    hide MovedFar, UnitsDisagree, Collapsed, OutsideBand, When;
    forall raised, r ensures reason in When(raised, r) <==> raised && reason == r { WhenMember(raised, r, reason); }
  }

  lemma WhenMember(raised: bool, reason: Reason, r: Reason)
    ensures r in When(raised, reason) <==> raised && r == reason
  {
  }

  /** What the verdict means downstream: OK carries a positive in-band price and no
      reason; REJECTED is exactly the unusable price; any other observation names at
      least one guard that fired, and an out-of-band price always does. */
  lemma VerdictMeaning(obs: ObservationInput, ctx: ObservationContext, bands: Bands)
    ensures var v := ValidateObservation(obs, ctx, bands);
            && (v.quality == Rejected <==> obs.price.None? || obs.price.value <= 0 || !obs.isUsd)
            && (v.quality == Ok <==> v.reasons == [])
            && (!Unusable(obs) && OutsideBand(bands, obs.category, obs.price.value) ==>
                  v.quality == Suspect && OutOfBand in v.reasons)
            && (v.quality == Ok ==>
                obs.price.Some? && obs.price.value > 0 && !OutsideBand(bands, obs.category, obs.price.value))
  {
    if !Unusable(obs) {
      var rs := Reasons(obs, ctx, bands, obs.price.value);
      if OutsideBand(bands, obs.category, obs.price.value) {
        assert rs[0] == OutOfBand;
      }
    }
  }

  /** An unchanged price never trips the two guards that compare with the last OK price,
      as long as neither side claims a pack count: 1.0 is at least 5 % away from every
      guessed pack count and its inverse. */
  lemma UnchangedPriceIsQuiet(price: int)
    requires price > 0
    ensures !MovedFar(price, price) && !LooksLikePack(price, price, None)
  {
    var ratio := price as real / price as real;
    assert ratio == 1.0;
    forall i | 0 <= i < |GUESSED_PACKS|
      ensures !Near(ratio, 1.0 / GUESSED_PACKS[i] as real) && !Near(ratio, GUESSED_PACKS[i] as real)
    {
      FarFromOne(GUESSED_PACKS[i]);
    }
  }

  lemma FarFromOne(n: int)
    requires n >= 3
    ensures !Near(1.0, 1.0 / n as real) && !Near(1.0, n as real)
  {
    assert 1.0 / n as real <= 1.0 / 3.0;
  }

  /** The collapse guard fires exactly when less than half of a positive earlier count is left;
      its second test, a fall by 70 %, adds nothing. */
  lemma CollapsedExactly(ctx: ObservationContext)
    ensures Collapsed(ctx) <==>
              && ctx.previousVariants.Some? && ctx.currentVariants.Some?
              && ctx.previousVariants.value > 0 && 2 * ctx.currentVariants.value < ctx.previousVariants.value
  {
    if ctx.previousVariants.Some? && ctx.currentVariants.Some? && ctx.previousVariants.value > 0 {
      var before, now := ctx.previousVariants.value as real, ctx.currentVariants.value as real;
      var share := (before - now) / before;
      assert share * before == before - now;
      if share * 100.0 >= COLLAPSE_PCT { SharePart(before, share); }
    }
  }

  lemma SharePart(before: real, share: real)
    requires before > 0.0 && share >= 0.7
    ensures share * before >= 0.7 * before
  {
    assert (share - 0.7) * before >= 0.0;
  }
}
