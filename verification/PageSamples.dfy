/** Two concrete pages that meet the conditions of the row theorem. */
module PageSamples {
  import opened Core
  import opened Validate
  import opened References
  import opened Schema
  import opened Runs
  import opened GridIngest
  import opened GridSweeps
  import opened GridPages
  import Lifecycle
  import TaskQueue

  const SampleRow := Row(1, "shop", "reel", map["reel" := Band(Some(1000), Some(200000))],
                         GridItem(DiscoveredItem("https://shop.example/p/reel", Some("reel-1"), Some(6000), false,
                                                 Some(15000),
                                                 Some(New), "reel"),
                                  Some("https://shop.example/p/reel"), "reel|1", 7, AutoCreated), 6000, 15000)

  const OtherItem := GridItem(DiscoveredItem("https://shop.example/p/rod", Some("rod-1"), Some(4000), false, Some(5000),
                                             Some(New), "rod"),
                              Some("https://shop.example/p/rod"), "rod|1", 8, AutoCreated)

  /** A page that shows another row before this one. */
  function SamplePage(v: Visit): Round {
    Shown(Page(SampleRow, v), [OtherItem, SampleRow.grid])
  }

  lemma SampleFits(v: Visit)
    ensures GoodRow(SampleRow) && PageFits(SampleRow, Page(SampleRow, v), [OtherItem, SampleRow.grid])
    ensures PageVisits(SampleRow, Page(SampleRow, v), [OtherItem, SampleRow.grid]) == [v]
  {
    var g, p, rows := SampleRow, Page(SampleRow, v), [OtherItem, SampleRow.grid];
    assert VisitOf(p) == v;
    assert SyntheticFetch(p, OtherItem).sku == "rod-1" && Sku(g) == "reel-1" && "rod-1"[1] != "reel-1"[1];
    assert !IsRow(g, p, rows[0]) && IsRow(g, p, rows[1]);
    assert rows[1..] == [SampleRow.grid] && rows[1..][1..] == [];
    assert PageVisits(g, p, rows[1..]) == [v];
  }

  lemma SampleRoundKeeps(t: Tables, v: Visit)
    ensures RoundVisits(t, SampleRow, SamplePage(v)) == [v]
  {
    hide PageVisits, GoodRow;
    SampleFits(v);
    PageGoesThrough(t, Page(SampleRow, v), [OtherItem, SampleRow.grid]);
  }

  lemma SampleVisits(t: Tables, first: Visit, second: Visit)
    ensures AllVisits(t, SampleRow, [SamplePage(first), SamplePage(second)]) == [first, second]
  {
    hide SamplePage, RoundVisits, ApplyRound;
    var rounds := [SamplePage(first), SamplePage(second)];
    var s := ApplyRound(t, rounds[0]);
    assert rounds[1..] == [SamplePage(second)] && rounds[1..][1..] == [];
    SampleRoundKeeps(t, first);
    SampleRoundKeeps(s, second);
    assert AllVisits(s, SampleRow, rounds[1..]) == [second] + AllVisits(ApplyRound(s, rounds[1]), SampleRow, []);
  }

  lemma TwoLooks(first: Visit, second: Visit)
    requires second.snapshotRef != first.snapshotRef && second.at == first.at + MIN_CONFIRM_DELAY
    ensures SeenLate([first, second])
  {
    assert [first, second][..1] == [first];
  }

  lemma EmptyIsOk(g: Row)
    ensures Lifecycle.DealsOk(Empty({})) && TaskQueue.TasksOk(Empty({}))
    ensures FindListing(Empty({}).listings, g.retailerId, Sku(g)).None?
  {
  }

  /** From empty tables, a 60 dollar reel under a 150 dollar claim, on pages that also show
      another row, is published by the second page ten minutes after the first. */
  lemma SampleRowPublished(first: Visit, second: Visit) returns (i: nat)
    requires second.snapshotRef != first.snapshotRef && second.at == first.at + MIN_CONFIRM_DELAY
    ensures var u := RunRounds(Empty({}), [SamplePage(first), SamplePage(second)]);
            i < |u.deals| && u.deals[i].status == Active && u.deals[i].price == 6000 && u.deals[i].discount == 6000
  {
    hide Settled, GoodRow, SamplePage, AllVisits, QuietRounds, RunRounds, SeenLate, Lifecycle.DealsOk,
        TaskQueue.TasksOk;
    var t, g, rounds := Empty({}), SampleRow, [SamplePage(first), SamplePage(second)];
    EmptyIsOk(g);
    SampleFits(first);
    SampleQuiet(t, first, second);
    SampleVisits(t, first, second);
    TwoLooks(first, second);
    var l, o;
    l, o, i := GridRowLifecycle(t, g, rounds);
    SampleNumbers(RunRounds(t, rounds), l, o, i);
  }

  lemma SampleQuiet(t: Tables, first: Visit, second: Visit)
    ensures QuietRounds(t, SampleRow, [SamplePage(first), SamplePage(second)])
  {
    hide GoodRow, PageFits, ApplyRound;
    var rounds := [SamplePage(first), SamplePage(second)];
    SampleFits(first);
    SampleFits(second);
    assert rounds[1..] == [SamplePage(second)] && rounds[1..][1..] == [];
    var s := ApplyRound(t, rounds[0]);
    assert QuietRounds(ApplyRound(s, rounds[1]), SampleRow, []);
    assert QuietRounds(s, SampleRow, rounds[1..]);
  }

  lemma SampleNumbers(t: Tables, l: nat, o: nat, i: nat)
    requires Settled(t, SampleRow, l, o, i)
    ensures i < |t.deals| && t.deals[i].price == 6000 && t.deals[i].discount == 6000
  {
  }
}
