/** The sweep loop of fpt/scheduler/listing_ingest.py on the database. */
module GridStore {
  import opened Core
  import opened Steps
  import opened Database
  import opened GridIngest
  import Pipeline

  /** ingest_discovered_items_as_observations. A row that aborts takes the whole
      transaction with it. */
  method IngestDiscoveredItems(db: Database, p: GridPage, rows: seq<GridItem>)
    returns (ok: bool, eligible: nat, ineligible: nat, outcomes: seq<IngestOutcome>)
    modifies db
    ensures IngestGrid(old(db.View()), p, rows) == if ok then Some(db.View()) else None
    ensures !ok ==> db.View() == old(db.View())
    ensures ok ==> eligible == CountEligible(rows) && ineligible == |rows| - eligible
    ensures ok ==> outcomes == GridOutcomes(old(db.View()), p, rows)
  {
    var saved := db.View();
    eligible, ineligible, outcomes := 0, 0, [];
    var n := 0;
    while n < |rows|
      invariant n <= |rows| && eligible + ineligible == n
      invariant eligible + CountEligible(rows[n..]) == CountEligible(rows)
      invariant IngestGrid(saved, p, rows) == IngestGrid(db.View(), p, rows[n..])
      invariant GridOutcomes(saved, p, rows) == outcomes + GridOutcomes(db.View(), p, rows[n..])
    {
      assert rows[n..][0] == rows[n] && rows[n..][1..] == rows[n + 1..];
      var row := rows[n];
      n := n + 1;
      if !IsEligible(row.item) {
        ineligible := ineligible + 1;
        continue;
      }
      eligible := eligible + 1;
      var done, outcome := Pipeline.IngestParsedListing(db, SyntheticFetch(p, row));
      if !done {
        db.Rollback(saved);
        return false, eligible, ineligible, outcomes;
      }
      ghost var rest := GridOutcomes(db.View(), p, rows[n..]);
      assert outcomes + ([outcome] + rest) == outcomes + [outcome] + rest;
      outcomes := outcomes + [outcome];
    }
    return true, eligible, ineligible, outcomes;
  }
}
