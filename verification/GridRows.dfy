/** What one row of a grid page stands for: which rows are ingested, under which sku, and what
    each of them leaves in the tables. */
module GridRows {
  import opened Core
  import opened Schema
  import opened DealRules
  import opened Steps
  import opened GridIngest
  import opened Replay
  import opened Catalog

  // ---------------------------------------------------------------- the sku

  function Slashes(n: nat): string {
    if n == 0 then "" else Slashes(n - 1) + "/"
  }

  lemma {:induction false} TrimsAll(s: string, n: nat)
    requires s != "" ==> s[|s| - 1] != '/'
    ensures TrimSlashes(s + Slashes(n)) == s
  {
    if n == 0 {
      assert s + Slashes(0) == s;
    } else {
      var fewer := s + Slashes(n - 1);
      TrimsAll(s, n - 1);
      assert s + Slashes(n) == fewer + "/";
      TrimsOne(fewer);
    }
  }

  lemma TrimsOne(s: string)
    ensures TrimSlashes(s + "/") == TrimSlashes(s)
  {
    assert (s + "/")[..|s|] == s;
  }

  lemma {:induction false} LastAfterSlash(a: string, segment: string)
    requires '/' !in segment && (a == "" || a[|a| - 1] == '/')
    ensures LastSegment(a + segment) == segment
  {
    if segment == "" {
      assert a + segment == a;
    } else {
      var n := |segment| - 1;
      var whole := a + segment;
      assert whole[..|whole| - 1] == a + segment[..n];
      LastAfterSlash(a, segment[..n]);
      assert segment == segment[..n] + [segment[n]];
    }
  }

  /** A row without a product code goes by the last segment of its URL, however many slashes
      follow it; with a code, by that. */
  lemma SkuIsLastSegment(item: DiscoveredItem, a: string, segment: string, n: nat)
    requires segment != "" && '/' !in segment && (a == "" || a[|a| - 1] == '/')
    requires item.productUrl == a + segment + Slashes(n)
    ensures SyntheticSku(item)
         == if item.productCode.Some? && item.productCode.value != "" then item.productCode.value else segment
  {
    var last := (a + segment)[|a + segment| - 1];
    assert last == segment[|segment| - 1];
    TrimsAll(a + segment, n);
    LastAfterSlash(a, segment);
  }

  /** A URL of slashes alone is its own sku. */
  lemma SkuOfSlashes(item: DiscoveredItem, n: nat)
    requires item.productUrl == Slashes(n) && item.productCode.None?
    ensures SyntheticSku(item) == item.productUrl
  {
    assert "" + Slashes(n) == Slashes(n);
    TrimsAll("", n);
  }

  // ---------------------------------------------------------------- which rows

  /** One price, not a range, and a claim to measure it by. */
  predicate Firm(item: DiscoveredItem) {
    item.price.Some? && item.claimed.Some? && !item.priceIsRange
  }

  function FirmRows(rows: seq<GridItem>): seq<GridItem> {
    if rows == [] then [] else (if Firm(rows[0].item) then [rows[0]] else []) + FirmRows(rows[1..])
  }

  /** The other rows of a page leave no trace, whatever they show. */
  lemma {:induction false} OtherRowsIgnored(t: Tables, p: GridPage, rows: seq<GridItem>)
    ensures IngestGrid(t, p, rows) == IngestGrid(t, p, FirmRows(rows))
    ensures CountEligible(rows) == |FirmRows(rows)|
    decreases rows
  {
    hide Ingest, IngestSucceeds;
    if rows != [] {
      var rest := FirmRows(rows[1..]);
      if Firm(rows[0].item) {
        var f := SyntheticFetch(p, rows[0]);
        assert FirmRows(rows) == [rows[0]] + rest && FirmRows(rows)[1..] == rest;
        OtherRowsIgnored(Ingest(t, f), p, rows[1..]);
        OtherRowsIgnored(t, p, rows[1..]);
      } else {
        assert FirmRows(rows) == rest;
        OtherRowsIgnored(t, p, rows[1..]);
      }
    }
  }

  /** The page reports one outcome for each firm row, in order: that of ingesting the row after
      the firm rows before it. */
  lemma {:induction false} OutcomesInOrder(t: Tables, p: GridPage, rows: seq<GridItem>, k: nat)
    requires IngestGrid(t, p, rows).Some? && k < |FirmRows(rows)|
    ensures |GridOutcomes(t, p, rows)| == |FirmRows(rows)|
    ensures var before := IngestGrid(t, p, FirmRows(rows)[..k]);
            && before.Some? && IngestSucceeds(before.value, SyntheticFetch(p, FirmRows(rows)[k]))
            && GridOutcomes(t, p, rows)[k] == OutcomeOf(before.value, SyntheticFetch(p, FirmRows(rows)[k]))
    decreases rows
  {
    hide Ingest, IngestSucceeds, OutcomeOf;
    var firm := FirmRows(rows);
    if Firm(rows[0].item) {
      var f := SyntheticFetch(p, rows[0]);
      var rest := FirmRows(rows[1..]);
      assert firm == [rows[0]] + rest;
      OutcomeCount(Ingest(t, f), p, rows[1..]);
      if k == 0 {
        assert firm[..0] == [];
      } else {
        OutcomesInOrder(Ingest(t, f), p, rows[1..], k - 1);
        assert firm[..k] == [rows[0]] + rest[..k - 1] && firm[..k][1..] == rest[..k - 1];
      }
    } else {
      assert firm == FirmRows(rows[1..]);
      OutcomesInOrder(t, p, rows[1..], k);
    }
  }

  lemma {:induction false} OutcomeCount(t: Tables, p: GridPage, rows: seq<GridItem>)
    ensures |GridOutcomes(t, p, rows)| == |FirmRows(rows)|
    decreases rows
  {
    hide Ingest, OutcomeOf;
    if rows != [] {
      OutcomeCount(if Firm(rows[0].item) then Ingest(t, SyntheticFetch(p, rows[0])) else t, p, rows[1..]);
    }
  }

  // ---------------------------------------------------------------- what a row leaves

  /** The observation that a row of the page becomes. */
  predicate ShowsRow(b: Observation, p: GridPage, row: GridItem) {
    && b.at == p.at && b.dayEt == p.dayEt && b.snapshotRef == p.snapshotRef
    && b.price == row.item.price && b.claimed == row.item.claimed && b.shipping.None?
    && (b.onClearance <==> p.page == ClearanceListing) && b.availability == InStock
    && b.unitCount.None? && b.variantKey == Some(row.variantKey)
  }

  /** The offer that a row belongs to: the grid offer of its listing, sold first party. */
  ghost predicate RowOffer(t: Tables, p: GridPage, row: GridItem, o: nat) {
    && o < |t.offers| && t.offers[o].listingId < |t.listings|
    && t.offers[o].offerKey == SyntheticSku(row.item) + "|grid"
    && t.offers[o].condition == (if row.item.conditionHint.Some? then row.item.conditionHint.value else New)
    && var l := ListingOf(t, o);
       && l.retailerId == p.retailerId && l.sku == SyntheticSku(row.item)
       && l.variantKey == Some(row.variantKey) && l.unitCount.None?
  }

  lemma RowTurn(t: Tables, p: GridPage, row: GridItem) returns (l: nat)
    requires Firm(row.item) && row.persistedUrl.Some? && IngestSucceeds(t, SyntheticFetch(p, row))
    ensures var f := SyntheticFetch(p, row); var t1 := StoreListingAndTask(t, f);
            && FindListing(t1.listings, f.retailerId, f.sku) == Some(l) && l < |t1.listings|
            && t1.listings[l].variantKey == Some(row.variantKey) && t1.listings[l].unitCount.None?
            && t1.tasks == t.tasks && t1.observations == t.observations
            && var r := ObserveOffer(t1, f, SyntheticOffer(row.item, p.page), l);
               !r.Violation? && Ingest(t, f) == r.tables
  {
    hide ObserveOffer;
    var f := SyntheticFetch(p, row);
    var t1 := StoreListingAndTask(t, f);
    l := UpsertListing(t.listings, f).1;
    assert FindListing(t1.listings, f.retailerId, f.sku) == Some(l) by { Found(t.listings, f); }
    assert f.offers == [SyntheticOffer(row.item, p.page)];
    var r := ObserveOffer(t1, f, f.offers[0], l);
    assert ObserveAll(t1, f, 0).Some?;
    assert ObserveAll(r.tables, f, 1) == Some(r.tables);
  }

  lemma Found(listings: seq<Listing>, f: Fetch)
    requires f.persistedUrl.Some?
    ensures var r := UpsertListing(listings, f); FindListing(r.0, f.retailerId, f.sku) == Some(r.1)
  {
    var r := UpsertListing(listings, f);
    var k := FindListing(r.0, f.retailerId, f.sku);
    assert k.Some? && !(k.value < r.1);
  }

  /** A firm row with a safe URL is stored under its own offer, as the page shows it: as one new
      observation, or, if the page was seen before, as the one that is there. */
  lemma RowRecorded(t: Tables, p: GridPage, row: GridItem) returns (o: nat)
    requires Firm(row.item) && row.persistedUrl.Some? && IngestSucceeds(t, SyntheticFetch(p, row))
    ensures var u := Ingest(t, SyntheticFetch(p, row)); var n := |t.observations|;
            && RowOffer(u, p, row, o) && Seller(p.retailerId, "first_party", FirstParty) in u.sellers
            && (if u.observations == t.observations
                then exists k :: 0 <= k < n && u.observations[k].offerId == o
                              && u.observations[k].snapshotRef == p.snapshotRef
                else |u.observations| == n + 1 && u.observations[..n] == t.observations
                     && u.observations[n].offerId == o && ShowsRow(u.observations[n], p, row))
  {
    hide DealStep, VerdictOf, UpsertListing, UpsertSeller, UpsertOffer;
    var l := RowTurn(t, p, row);
    var f := SyntheticFetch(p, row);
    var t1 := StoreListingAndTask(t, f);
    var offer := SyntheticOffer(row.item, p.page);
    var r := ObserveOffer(t1, f, offer, l);
    o := r.offerId;
    SellerRow(t1.sellers, p.retailerId, offer);
    assert r.tables.sellers == UpsertSeller(t1.sellers, p.retailerId, "first_party", FirstParty).0;
  }

  /** A grid row queues nothing: the next sweep confirms. */
  lemma RowQueuesNothing(t: Tables, p: GridPage, row: GridItem)
    requires Firm(row.item) && IngestSucceeds(t, SyntheticFetch(p, row))
    ensures Ingest(t, SyntheticFetch(p, row)).tasks == t.tasks
  {
    hide StoreListingAndTask, IngestSucceeds, ObserveAll;
    if row.persistedUrl.Some? {
      hide Ingest;
      var l := RowTurn(t, p, row);
      var f := SyntheticFetch(p, row);
      OfferQueuesNothing(StoreListingAndTask(t, f), f, SyntheticOffer(row.item, p.page), l);
    }
  }

  lemma OfferQueuesNothing(t: Tables, f: Fetch, offer: ParsedOffer, l: nat)
    requires l < |t.listings| && f.persistedUrl.Some? && f.skipConfirmTask
    ensures var r := ObserveOffer(t, f, offer, l); !r.Violation? ==> r.tables.tasks == t.tasks
  {
    hide VerdictOf, DetectedDeal, BuildConfirmContext, FreshReference, RecheckTarget, ConfirmTarget, RecheckDeal;
  }

  /** A whole page queues nothing. */
  lemma {:induction false} PageQueuesNothing(t: Tables, p: GridPage, rows: seq<GridItem>)
    requires IngestGrid(t, p, rows).Some?
    ensures IngestGrid(t, p, rows).value.tasks == t.tasks
    decreases rows
  {
    hide Ingest, IngestSucceeds;
    if rows != [] {
      if Firm(rows[0].item) {
        RowQueuesNothing(t, p, rows[0]);
        PageQueuesNothing(Ingest(t, SyntheticFetch(p, rows[0])), p, rows[1..]);
      } else {
        PageQueuesNothing(t, p, rows[1..]);
      }
    }
  }

  ghost predicate RefsOk(t: Tables) {
    && (forall k :: 0 <= k < |t.observations| ==> t.observations[k].offerId < |t.offers|)
    && (forall j :: 0 <= j < |t.offers| ==> t.offers[j].listingId < |t.listings|)
  }

  /** A row without a safe URL is skipped without a trace. Any other firm row aborts the page if
      and only if its claim is not positive and the page has not shown it before. */
  lemma RowAborts(t: Tables, p: GridPage, row: GridItem)
    requires Firm(row.item) && RefsOk(t)
    ensures var f := SyntheticFetch(p, row); var sku := SyntheticSku(row.item);
            if row.persistedUrl.None? then IngestSucceeds(t, f) && Ingest(t, f) == t
            else IngestSucceeds(t, f) <==>
              row.item.claimed.value > 0 || OfferRecorded(t, p.retailerId, sku, p.snapshotRef, sku + "|grid")
  {
    hide DealStep, VerdictOf, UpsertSeller, ObserveOffer, OfferRecorded;
    if row.persistedUrl.Some? {
      var f := SyntheticFetch(p, row);
      var t1 := StoreListingAndTask(t, f);
      Found(t.listings, f);
      var l := UpsertListing(t.listings, f).1;
      assert f.offers == [SyntheticOffer(row.item, p.page)];
      var r := ObserveOffer(t1, f, f.offers[0], l);
      assert r.Violation? ==> ObserveAll(t1, f, 0).None?;
      assert !r.Violation? ==> ObserveAll(r.tables, f, 1).Some?;
      OfferAborts(t, p, row, l);
    }
  }

  lemma OfferAborts(t: Tables, p: GridPage, row: GridItem, l: nat)
    requires Firm(row.item) && RefsOk(t) && row.persistedUrl.Some?
    requires UpsertListing(t.listings, SyntheticFetch(p, row)).1 == l
    ensures var f := SyntheticFetch(p, row); var sku := SyntheticSku(row.item);
            var r := ObserveOffer(StoreListingAndTask(t, f), f, SyntheticOffer(row.item, p.page), l);
            !r.Violation? <==>
              row.item.claimed.value > 0 || OfferRecorded(t, p.retailerId, sku, p.snapshotRef, sku + "|grid")
  {
    hide DealStep, VerdictOf, UpsertSeller;
  }
}
