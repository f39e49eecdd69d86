/** What an ingest reports about deals: one entry for each turn that looked at them, in order,
    and each entry is what that turn did. */
module Reports {
  import opened Core
  import opened Validate
  import opened Schema
  import opened DealRules
  import opened Steps
  import opened Lifecycle
  import opened DealSteps
  import Runs

  function Flat(parts: seq<Option<DealAction>>): seq<DealAction> {
    if parts == [] then [] else (if parts[0].Some? then [parts[0].value] else []) + Flat(parts[1..])
  }

  /** One turn: a replay reports and changes nothing; a new observation reports what it did to
      the deals, and an OK one always reports something. */
  ghost predicate TurnReports(t: Tables, u: Tables, o: nat, r: Recording, action: Option<DealAction>) {
    if r.wasDuplicate then action.None? && u.deals == t.deals && u.observations == t.observations
    else
      && ActionMeans(t.deals, u.deals, o, r.obs, action)
      && |u.observations| == |t.observations| + 1 && r.obs == |t.observations| && u.observations[r.obs].offerId == o
      && (u.observations[r.obs].quality == Ok ==> action.Some?)
  }

  /** The tables before turn k, of the ingest's own run. */
  function Before(t: Tables, f: Fetch, i: nat, k: nat): Tables
    requires i <= |f.offers|
    decreases k
  {
    if k == 0 || i == |f.offers| then t else Before(ObserveStep(t, f, f.offers[i]), f, i + 1, k - 1)
  }

  ghost predicate Reported(t: Tables, f: Fetch, i: nat, log: IngestLog, parts: seq<Option<DealAction>>)
    requires i <= |f.offers|
  {
    && |parts| == |log.offerIds| == |log.observations| == |f.offers| - i && log.actions == Flat(parts)
    && forall k :: 0 <= k < |parts| ==>
         TurnReports(Before(t, f, i, k), Before(t, f, i, k + 1), log.offerIds[k], log.observations[k], parts[k])
  }

  lemma OneTurn(t: Tables, f: Fetch, offer: ParsedOffer, l: nat) returns (action: Option<DealAction>)
    requires OneOpen(t.deals) && FindListing(t.listings, f.retailerId, f.sku) == Some(l) && f.persistedUrl.Some?
    requires !ObserveOffer(t, f, offer, l).Violation?
    ensures var r := ObserveOffer(t, f, offer, l); var log := LogOf(r);
            && |log.offerIds| == |log.observations| == 1 && r.tables == ObserveStep(t, f, offer)
            && r.tables.listings == t.listings && log.actions == Flat([action])
            && TurnReports(t, r.tables, log.offerIds[0], log.observations[0], action)
  {
    hide DealStep, VerdictOf;
    var r := ObserveOffer(t, f, offer, l);
    action := if r.Stored? then r.action else None;
    assert [action][1..] == [] && Flat([]) == [];
    if r.Stored? {
      var (t1, o) := WithOffer(t, f, offer, l);
      var v := VerdictOf(t, f, offer, o);
      var t2 := t1.(observations := t.observations + [ObservationRow(f, offer, o, v.quality)]);
      ActionMeaning(t2, f, offer, o, |t.observations|, v);
      StepExactly(t2, f, offer, o, |t.observations|, v);
      PricedIfOk(t, f, offer, o);
    }
  }

  lemma PricedIfOk(t: Tables, f: Fetch, offer: ParsedOffer, o: nat)
    ensures VerdictOf(t, f, offer, o).quality == Ok ==> offer.price.Some?
  {
    hide Reasons, LastOkPrice;
  }

  lemma FlatCons(part: Option<DealAction>, rest: seq<Option<DealAction>>)
    ensures Flat([part] + rest) == Flat([part]) + Flat(rest)
  {
    assert ([part] + rest)[1..] == rest && [part][1..] == [];
  }

  lemma ReportsJoin(t: Tables, f: Fetch, i: nat, r: OfferResult, rest: IngestLog, action: Option<DealAction>,
                    parts: seq<Option<DealAction>>)
    requires i < |f.offers| && !r.Violation? && r.tables == ObserveStep(t, f, f.offers[i])
    requires |LogOf(r).offerIds| == |LogOf(r).observations| == 1 && LogOf(r).actions == Flat([action])
    requires TurnReports(t, r.tables, LogOf(r).offerIds[0], LogOf(r).observations[0], action)
    requires Reported(r.tables, f, i + 1, rest, parts)
    ensures Reported(t, f, i, Joined(LogOf(r), rest), [action] + parts)
  {
    hide TurnReports, Flat, ObserveStep;
    FlatCons(action, parts);
    var all, log := [action] + parts, Joined(LogOf(r), rest);
    forall k | 0 <= k < |all|
      ensures TurnReports(Before(t, f, i, k), Before(t, f, i, k + 1), log.offerIds[k], log.observations[k], all[k])
    {
      assert Before(t, f, i, k + 1) == Before(r.tables, f, i + 1, k);
      if k == 0 {
        assert Before(r.tables, f, i + 1, 0) == r.tables;
      } else {
        assert Before(t, f, i, k) == Before(r.tables, f, i + 1, k - 1);
      }
    }
  }

  lemma StillOneOpen(t: Tables, f: Fetch, offer: ParsedOffer)
    requires DealsOk(t)
    ensures DealsOk(ObserveStep(t, f, offer)) && OneOpen(t.deals)
  {
    Runs.ObserveKeeps(t, f, offer);
  }

  /** The actions reported by the offer loop are those of its turns, in order. */
  lemma {:induction false} LoopReports(t: Tables, f: Fetch, i: nat) returns (parts: seq<Option<DealAction>>)
    requires i <= |f.offers| && f.persistedUrl.Some? && FindListing(t.listings, f.retailerId, f.sku).Some?
    requires DealsOk(t) && ObserveAll(t, f, i).Some?
    ensures Reported(t, f, i, ObserveLog(t, f, i), parts)
    decreases |f.offers| - i
  {
    hide ObserveOffer, LogOf, ObserveStep, TurnReports, DealsOk;
    if i == |f.offers| {
      parts := [];
    } else {
      var l := FindListing(t.listings, f.retailerId, f.sku).value;
      var r := ObserveOffer(t, f, f.offers[i], l);
      StillOneOpen(t, f, f.offers[i]);
      var action := OneTurn(t, f, f.offers[i], l);
      var rest := LoopReports(r.tables, f, i + 1);
      ReportsJoin(t, f, i, r, ObserveLog(r.tables, f, i + 1), action, rest);
      parts := [action] + rest;
    }
  }

  /** An ingest reports its listing, one offer and one observation for each offer of the fetch,
      and what each of them did to the deals, in order. */
  lemma IngestReports(t: Tables, f: Fetch) returns (parts: seq<Option<DealAction>>)
    requires DealsOk(t) && f.persistedUrl.Some? && IngestSucceeds(t, f)
    ensures var out := OutcomeOf(t, f); var t1 := StoreListingAndTask(t, f);
            && out.listingId.Some? && out.listingId.value < |t1.listings|
            && t1.listings[out.listingId.value].retailerId == f.retailerId
            && t1.listings[out.listingId.value].sku == f.sku
            && Reported(t1, f, 0, out.log, parts)
  {
    hide ObserveAll, ObserveLog, DealsOk;
    Runs.ApplyKeeps(t, StoreListing(f));
    assert FindListing(StoreListingAndTask(t, f).listings, f.retailerId, f.sku).Some?;
    parts := LoopReports(StoreListingAndTask(t, f), f, 0);
  }
}
