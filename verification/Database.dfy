/** The database connection of fpt/store as an object: one field a table, written by the
    methods of the modules below; View is the value that the rules speak about. */
module Database {
  import opened Schema

  class Database {
    var sellers: seq<Seller>
    var listings: seq<Listing>
    var offers: seq<Offer>
    var observations: seq<Observation>
    var deals: seq<Deal>
    var tasks: seq<Task>
    var tracked: seq<TrackedUrl>
    var hits: seq<Hit>
    var conflicts: set<(nat, int)>

    function View(): Tables
      reads this
    {
      Tables(sellers, listings, offers, observations, deals, tasks, tracked, hits, conflicts)
    }

    constructor ()
      ensures View() == Tables([], [], [], [], [], [], [], [], {})
    {
      sellers, listings, offers, observations, deals, tasks, tracked, hits := [], [], [], [], [], [], [], [];
      conflicts := {};
    }

    /** conn.rollback() to a remembered state. */
    method Rollback(t: Tables)
      modifies this
      ensures View() == t
    {
      sellers, listings, offers, observations := t.sellers, t.listings, t.offers, t.observations;
      deals, tasks, tracked, hits, conflicts := t.deals, t.tasks, t.tracked, t.hits, t.conflicts;
    }
  }
}
