/** Which of the three things a fresh observation does, when each happens, and what the
    recheck and the two sweeps do to a row. */
module DealSteps {
  import opened Core
  import opened Percent
  import opened Validate
  import opened Detect
  import opened Confirm
  import opened Schema
  import opened DealRules
  import opened Lifecycle
  import opened Detections

  // ---------------------------------------------------------------- the recheck of one row

  /** What a recheck compares and stores: the price with its shipping, in both columns as far
      as the shipping is known. */
  lemma ComparedExactly(rule: Rule, offer: ParsedOffer)
    requires offer.price.Some?
    ensures ComparePrice(rule, offer) == WithShipping(offer)
    ensures LandedPrice(offer).1 == if offer.shipping.Some? then Some(WithShipping(offer)) else None
  {
  }

  /** An ACTIVE deal stays ACTIVE if and only if the offer can be bought, a positive reference
      exists, the price rose at most 2 % and is still half the reference off; the reason names
      the first of these that fails, and nothing else of the row changes. */
  lemma RecheckExactly(d: Deal, obs: nat, compare: int, landed: Option<int>, availability: Availability,
                       reference: Option<int>, now: Time)
    requires d.status == Active
    ensures var e := RecheckDeal(d, obs, compare, landed, availability, reference, now);
            var buyable := availability == InStock || availability == StoreOnly;
            var priced := reference.Some? && reference.value > 0;
            var fits :=
              100 * compare <= 102 * d.price && 20000 * compare <= 10001 * (if priced then reference.value else 0);
            if !buyable then e == d.(status := Expired, expiredAt := Some(now), expireReason := Some(SoldOut))
            else if !priced then e == d.(status := Expired, expiredAt := Some(now), expireReason := Some(ReferenceLost))
            else if !fits then e == d.(status := Expired, expiredAt := Some(now), expireReason := Some(PriceRecovered))
            else e == d.(price := compare, landed := landed, reference := reference.value,
                         discount := Pct(compare, reference.value), lastConfirmedObs := Some(obs))
  {
    hide Pct;
    if reference.Some? && reference.value > 0 { HalfOffExactly(compare, reference.value); }
  }

  /** A confirmation stores the price of the second fetch, the reference of that moment and the
      percentage of these two, and when it published; a rejection stores only its reason. */
  lemma ConfirmStores(t: Tables, f: Fetch, offer: ParsedOffer, obs: nat, v: Verdict, i: nat)
    requires i < |t.deals| && offer.price.Some?
    requires t.deals[i].offerId < |t.offers| && t.offers[t.deals[i].offerId].listingId < |t.listings|
    ensures var d := t.deals[i]; var reference := FreshReference(t, d, offer, f.clock);
            var result := ConfirmCandidate(BuildConfirmContext(t, d, f, offer, v));
            var e := ConfirmOutcome(t, f, offer, obs, v, i).deals[i];
            match result
            case ToRejected(why) =>
              e == d.(status := Refused, confirmingObs := Some(obs), rejectReason := Some(why))
            case _ =>
              && reference.Some? && 20000 * offer.price.value <= 10001 * reference.value
              && e == d.(status := e.status, held := e.held, confirmedAt := e.confirmedAt,
                         confirmingObs := Some(obs), lastConfirmedObs := Some(obs), price := offer.price.value,
                         reference := reference.value, discount := Pct(offer.price.value, reference.value))
              && (result == ToActive ==> e.status == Active && !e.held && e.confirmedAt == Some(f.clock.now))
              && (result == ToHeldReview ==> e.status == HeldReview && e.held && e.confirmedAt == d.confirmedAt)
  {
    hide FreshReference, ReferenceIdentity, Pct, ConfirmCandidate;
    var d := t.deals[i];
    var c := BuildConfirmContext(t, d, f, offer, v);
    ConfirmExactly(c);
    assert !ConfirmCandidate(c).ToRejected? ==> c.discount >= 5000;
    if c.reference.Some? && c.reference.value > 0 { HalfOffExactly(offer.price.value, c.reference.value); }
  }

  // ---------------------------------------------------------------- the deal that is touched

  function Rank(rule: Rule): nat {
    match rule
    case DeepDiscountNew => 0
    case DeepDiscountClaimed => 1
    case UsedVsCurrentNew => 2
  }

  predicate IsActive(d: Deal, o: nat) {
    d.offerId == o && d.status == Active
  }

  /** Pending, detected by another observation, and at least ten minutes old. */
  predicate IsPending(d: Deal, o: nat, obs: nat, at: Time) {
    d.offerId == o && (d.status == Confirming || d.status == AsCandidate) && d.detectedObs != obs
    && at - d.detectedAt >= 10 * MINUTE
  }

  lemma OpenIsFound(deals: seq<Deal>, i: nat)
    requires OneOpen(deals) && i < |deals| && IsOpen(deals[i])
    ensures FindOpenDeal(deals, deals[i].offerId, deals[i].rule) == Some(i)
  {
    var j := FindOpenDeal(deals, deals[i].offerId, deals[i].rule);
    assert j.Some? && !(j.value < i) && !(i < j.value);
  }

  /** A choice made for each rule in turn: the first that is Some. */
  function FirstSome(a: Option<nat>, b: Option<nat>, c: Option<nat>): Option<nat> {
    if a.Some? then a else if b.Some? then b else c
  }

  function ActiveOf(deals: seq<Deal>, o: nat, rule: Rule): Option<nat> {
    var i := FindOpenDeal(deals, o, rule);
    if i.Some? && deals[i.value].status == Active then i else None
  }

  function PendingOf(deals: seq<Deal>, o: nat, obs: nat, at: Time, rule: Rule): Option<nat> {
    var i := FindOpenDeal(deals, o, rule);
    if i.Some? && AwaitsConfirmation(deals[i.value], obs, at) then i else None
  }

  lemma TargetsInOrder(deals: seq<Deal>, o: nat, obs: nat, at: Time)
    ensures RecheckTarget(deals, o, RULES)
         == FirstSome(ActiveOf(deals, o, DeepDiscountNew), ActiveOf(deals, o, DeepDiscountClaimed),
                      ActiveOf(deals, o, UsedVsCurrentNew))
    ensures ConfirmTarget(deals, o, obs, at, RULES)
         == FirstSome(PendingOf(deals, o, obs, at, DeepDiscountNew), PendingOf(deals, o, obs, at, DeepDiscountClaimed),
                      PendingOf(deals, o, obs, at, UsedVsCurrentNew))
  {
    hide FindOpenDeal;
    assert RULES[1..] == [DeepDiscountClaimed, UsedVsCurrentNew] && RULES[1..][1..] == [UsedVsCurrentNew];
    assert RULES[1..][1..][1..] == [];
    assert RecheckTarget(deals, o, []).None? && ConfirmTarget(deals, o, obs, at, []).None?;
    assert RecheckTarget(deals, o, [UsedVsCurrentNew]) == ActiveOf(deals, o, UsedVsCurrentNew);
    assert ConfirmTarget(deals, o, obs, at, [UsedVsCurrentNew]) == PendingOf(deals, o, obs, at, UsedVsCurrentNew);
    assert RecheckTarget(deals, o, RULES[1..])
        == FirstSome(None, ActiveOf(deals, o, DeepDiscountClaimed), ActiveOf(deals, o, UsedVsCurrentNew));
    assert ConfirmTarget(deals, o, obs, at, RULES[1..])
        == FirstSome(None, PendingOf(deals, o, obs, at, DeepDiscountClaimed),
                     PendingOf(deals, o, obs, at, UsedVsCurrentNew));
  }

  /** The chosen deal is the first, in rule order, of those that fit; none means none fits. */
  ghost predicate FirstByRule(deals: seq<Deal>, r: Option<nat>, fits: Deal -> bool) {
    match r
    case None => forall i :: 0 <= i < |deals| ==> !fits(deals[i])
    case Some(k) =>
      && k < |deals| && fits(deals[k])
      && forall i :: 0 <= i < |deals| && fits(deals[i]) ==> Rank(deals[k].rule) <= Rank(deals[i].rule)
  }

  /** A recheck takes the ACTIVE deal of the offer that is first in rule order. */
  lemma RecheckTargetExactly(deals: seq<Deal>, o: nat)
    requires OneOpen(deals)
    ensures FirstByRule(deals, RecheckTarget(deals, o, RULES), (d: Deal) => IsActive(d, o))
  {
    hide RecheckTarget, ConfirmTarget;
    TargetsInOrder(deals, o, 0, 0);
    forall i | 0 <= i < |deals| && IsActive(deals[i], o) ensures ActiveOf(deals, o, deals[i].rule) == Some(i) {
      OpenIsFound(deals, i);
    }
  }

  /** A confirmation takes the pending deal of the offer that is first in rule order. */
  lemma ConfirmTargetExactly(deals: seq<Deal>, o: nat, obs: nat, at: Time)
    requires OneOpen(deals)
    ensures FirstByRule(deals, ConfirmTarget(deals, o, obs, at, RULES), (d: Deal) => IsPending(d, o, obs, at))
  {
    hide RecheckTarget, ConfirmTarget;
    TargetsInOrder(deals, o, obs, at);
    forall i | 0 <= i < |deals| && IsPending(deals[i], o, obs, at)
      ensures PendingOf(deals, o, obs, at, deals[i].rule) == Some(i)
    {
      OpenIsFound(deals, i);
    }
  }

  // ---------------------------------------------------------------- one of three things

  ghost predicate SomeActive(deals: seq<Deal>, o: nat) {
    exists i :: 0 <= i < |deals| && IsActive(deals[i], o)
  }

  ghost predicate SomePending(deals: seq<Deal>, o: nat, obs: nat, at: Time) {
    exists i :: 0 <= i < |deals| && IsPending(deals[i], o, obs, at)
  }

  predicate IsRecheck(action: Option<DealAction>) {
    action.Some? && (action.value.Refreshed? || action.value.ExpiredActive?)
  }

  predicate IsDetection(action: Option<DealAction>) {
    action.Some? && (action.value.CandidateCreated? || action.value.NoDeal?)
  }

  /** An OK observation rechecks the offer's ACTIVE deal if it has one. Otherwise any
      observation with a price confirms its pending deal if it has one. Otherwise an OK
      observation is looked at for a new deal. Everything else changes nothing. */
  lemma StepExactly(t: Tables, f: Fetch, offer: ParsedOffer, o: nat, obs: nat, v: Verdict)
    requires o < |t.offers| && t.offers[o].listingId < |t.listings| && f.persistedUrl.Some? && OneOpen(t.deals)
    ensures var out := DealStep(t, f, offer, o, obs, v);
            var priced, ok := offer.price.Some?, v.quality == Ok;
            var active, pending := SomeActive(t.deals, o), SomePending(t.deals, o, obs, f.at);
            && (IsRecheck(out.action) <==> priced && ok && active)
            && (out.action.Some? && out.action.value.Confirmed? <==> priced && pending && !(ok && active))
            && (IsDetection(out.action) <==> priced && ok && !active && !pending)
            && (out.action.None? ==> out.deals == t.deals && out.tasks == t.tasks)
  {
    hide RecheckTarget, ConfirmTarget, RecheckDeal, BuildConfirmContext, DetectedDeal;
    RecheckTargetExactly(t.deals, o);
    ConfirmTargetExactly(t.deals, o, obs, f.at);
  }

  /** Looking for a new deal reports one if and only if a rule fires. It is then in the deals,
      for this offer and rule, and open; and unless the caller confirms by itself, a CONFIRM
      task for it is open. */
  lemma DetectionExactly(t: Tables, f: Fetch, offer: ParsedOffer, o: nat, obs: nat)
    requires o < |t.offers| && t.offers[o].listingId < |t.listings| && offer.price.Some? && f.persistedUrl.Some?
    ensures var out := DetectOutcome(t, f, offer, o, obs); var row := DetectedDeal(t, f, offer, o, obs);
            && (row.None? ==> out == DealOutcome(t.deals, t.tasks, Some(NoDeal)))
            && (row.Some? ==>
                  && out.action.Some? && out.action.value.CandidateCreated?
                  && var i := out.action.value.dealId;
                     && i < |out.deals| && out.deals[i].offerId == o && out.deals[i].rule == row.value.rule
                     && IsOpen(out.deals[i])
                     && (out.deals == t.deals || out.deals == t.deals + [row.value])
                     && (out.deals != t.deals <==> FindOpenDeal(t.deals, o, row.value.rule).None?)
                     && (if f.skipConfirmTask then out.tasks == t.tasks else HasConfirm(out.tasks, i))
                     && (out.tasks == t.tasks || out.tasks == t.tasks + [ConfirmTaskFor(f, i)]))
  {
    hide DetectedDeal;
    DetectedShape(t, f, offer, o, obs);
    var out := DetectOutcome(t, f, offer, o, obs);
    if |out.tasks| > |t.tasks| {
      assert IsOpenTask(out.tasks[|t.tasks|]);
    }
    assert |out.deals| == |t.deals| ==> out.deals == t.deals;
    assert |out.deals| > |t.deals| ==> |t.deals + out.deals[|t.deals|..]| == |out.deals|;
  }

  ghost predicate HasConfirm(tasks: seq<Task>, i: nat) {
    exists j :: 0 <= j < |tasks| && IsOpenTask(tasks[j]) && tasks[j].dedupeKey == ConfirmKey(i)
  }

  /** The queued confirmation: in ten minutes, within three hours, at the listing's own page. */
  function ConfirmTaskFor(f: Fetch, i: nat): Task
    requires f.persistedUrl.Some?
  {
    Task(f.retailerId, ConfirmTask, 10, f.persistedUrl.value, f.category, Some(i), ConfirmKey(i),
         f.at + 10 * MINUTE, Some(f.at + 3 * HOUR), Queued)
  }

  // ---------------------------------------------------------------- the sweeps, row by row

  /** A deal expires as not observed if and only if it is ACTIVE and every OK observation of
      its offer is older than the window. */
  lemma StaleExactly(t: Tables, now: Time, staleHours: int, i: nat)
    requires i < |t.deals|
    ensures var d, e := t.deals[i], ExpireStaleDeals(t, now, staleHours)[i];
            var stale :=
              d.status == Active
              && forall j :: 0 <= j < |t.observations| && t.observations[j].offerId == d.offerId ==>
                   t.observations[j].quality == Ok ==> now - t.observations[j].at > staleHours * HOUR;
            e == if stale then d.(status := Expired, expiredAt := Some(now), expireReason := Some(NotObserved)) else d
  {
  }

  /** A task expires if and only if it is a queued CONFIRM task of the retailer past its
      deadline; nothing else of it changes. */
  lemma TaskDeadlineExactly(tasks: seq<Task>, retailerId: int, now: Time, i: nat)
    requires i < |tasks|
    ensures var a, b := tasks[i], ExpireOverdueTasks(tasks, retailerId, now)[i];
            b == if a.retailerId == retailerId && a.kind == ConfirmTask && a.status == Queued && a.deadline.Some?
                    && now > a.deadline.value then a.(status := TaskExpired) else a
  {
  }
}
