/** Observations straight from a listing grid (fpt/scheduler/listing_ingest.py). */
module GridIngest {
  import opened Core
  import opened Validate
  import opened References
  import opened Schema
  import opened DealRules
  import opened Steps

  /** One fetched grid page. */
  datatype GridPage = GridPage(
    retailerId: int, retailerSlug: string, category: string, bands: Bands, page: PageType,
    at: Time, dayEt: int, snapshotRef: string, clock: Clock)

  /** A grid row with the answers of the parts that are not modelled. */
  datatype GridItem = GridItem(
    item: DiscoveredItem, persistedUrl: Option<string>, variantKey: string, variantId: int, matchStatus: MatchStatus)

  /** rstrip("/") */
  function TrimSlashes(s: string): string {
    if s != [] && s[|s| - 1] == '/' then TrimSlashes(s[..|s| - 1]) else s
  }

  /** rsplit("/", 1)[-1] */
  function LastSegment(s: string): string {
    if s == [] || s[|s| - 1] == '/' then "" else LastSegment(s[..|s| - 1]) + [s[|s| - 1]]
  }

  function SyntheticSku(item: DiscoveredItem): string {
    if item.productCode.Some? && item.productCode.value != "" then item.productCode.value
    else
      var last := LastSegment(TrimSlashes(item.productUrl));
      if last != "" then last else item.productUrl
  }

  predicate IsEligible(item: DiscoveredItem) {
    item.price.Some? && !item.priceIsRange && item.claimed.Some?
  }

  function SyntheticOffer(item: DiscoveredItem, page: PageType): ParsedOffer {
    ParsedOffer(SyntheticSku(item) + "|grid",
                if item.conditionHint.Some? then item.conditionHint.value else New,
                "first_party", FirstParty, item.price, None, item.claimed,
                page == ClearanceListing, InStock, None)
  }

  /** The fetch that a grid row is ingested as: the caller's own task, no CONFIRM task. */
  function SyntheticFetch(p: GridPage, row: GridItem): Fetch {
    Fetch(p.retailerId, p.retailerSlug, SyntheticSku(row.item), p.category, p.bands, p.page, DiscoveryTask,
          p.at, p.dayEt, p.snapshotRef, row.persistedUrl, row.variantKey, row.variantId, row.matchStatus,
          [SyntheticOffer(row.item, p.page)], false, true, p.clock)
  }

  /** ingest_discovered_items_as_observations; None when a row aborts it. */
  function IngestGrid(t: Tables, p: GridPage, rows: seq<GridItem>): Option<Tables>
    decreases rows
  {
    if rows == [] then Some(t)
    else if !IsEligible(rows[0].item) then IngestGrid(t, p, rows[1..])
    else
      var f := SyntheticFetch(p, rows[0]);
      if !IngestSucceeds(t, f) then None else IngestGrid(Ingest(t, f), p, rows[1..])
  }

  function CountEligible(rows: seq<GridItem>): nat {
    if rows == [] then 0 else (if IsEligible(rows[0].item) then 1 else 0) + CountEligible(rows[1..])
  }

  /** One outcome for each eligible row, as long as none aborts. */
  function GridOutcomes(t: Tables, p: GridPage, rows: seq<GridItem>): seq<IngestOutcome>
    decreases rows
  {
    if rows == [] then []
    else if !IsEligible(rows[0].item) then GridOutcomes(t, p, rows[1..])
    else
      var f := SyntheticFetch(p, rows[0]);
      [OutcomeOf(t, f)] + GridOutcomes(Ingest(t, f), p, rows[1..])
  }
}
