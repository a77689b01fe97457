/** The database as the object every session shares: four tables updated in place. */
module Tables {
  import opened Schema

  class Database {
    var endpoints: map<Id, Endpoint>
    var events: map<Id, Event>
    var deliveries: map<Id, Delivery>
    var attempts: map<Id, Attempt>

    constructor ()
      ensures Contents() == EMPTY_DB
    {
      endpoints, events, deliveries, attempts := map[], map[], map[], map[];
    }

    function Contents(): (db: DB)
      reads this
      ensures db.endpoints == endpoints && db.events == events
      ensures db.deliveries == deliveries && db.attempts == attempts
    {
      DB(endpoints, events, deliveries, attempts)
    }

    /** Flush: keep what was staged if it satisfies every constraint, else report a violation. */
    method Flush() returns (ok: bool)
      ensures ok == Constraints(Contents())
    {
      ok := Constraints(Contents());
    }

    method Rollback(saved: DB)
      modifies this
      ensures Contents() == saved
    {
      endpoints, events, deliveries, attempts :=
        saved.endpoints, saved.events, saved.deliveries, saved.attempts;
    }
  }
}
