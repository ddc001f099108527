/** The pool of server connections of cmd/postgres_exporter/server.go. */
module ConnectionPool {
  import opened Prelude

  class Server {
    const dsn: string
    var closed: bool

    constructor (dsn: string)
      ensures this.dsn == dsn && !closed
    {
      this.dsn := dsn;
      closed := false;
    }

    method Close()
      modifies this
      ensures closed
    {
      closed := true;
    }

    // The database answers or not; a closed connection never does. A failing ping closes it.
    method Ping(answers: bool) returns (ok: bool)
      modifies this
      ensures ok <==> answers && !old(closed)
      ensures closed <==> old(closed) || !ok
    {
      if closed || !answers {
        Close();
        return false;
      }
      return true;
    }
  }

  // What the world does in one attempt: whether a connection can be set up and whether it answers.
  datatype Attempt = Attempt(opens: bool, answers: bool)

  const RETRIES: nat := 1

  class Servers {
    var servers: map<string, Server>
    // Every server ever opened through this pool.
    ghost var all: set<Server>

    // One server per DSN, filed under its own DSN, and nothing open outside the pool.
    ghost predicate Valid()
      reads this, all
    {
      && servers.Values <= all
      && (forall d :: d in servers ==> servers[d].dsn == d)
      && forall s :: s in all ==> s.closed || (s.dsn in servers && servers[s.dsn] == s)
    }

    constructor ()
      ensures Valid() && servers == map[] && all == {}
    {
      servers := map[];
      all := {};
    }

    // Whether an attempt on the pool as it is leads to a live connection.
    ghost predicate Succeeds(dsn: string, attempt: Attempt)
      reads this, servers.Values
    {
      attempt.answers && if dsn in servers then !servers[dsn].closed else attempt.opens
    }

    // One round of the retry loop.
    method Try(dsn: string, attempt: Attempt) returns (r: Option<Server>)
      requires Valid()
      modifies this, servers.Values
      ensures Valid() && old(all) <= all && fresh(all - old(all))
      ensures r.Some? <==> old(Succeeds(dsn, attempt))
      ensures r.Some? ==> dsn in servers && servers[dsn] == r.value && !r.value.closed
      ensures r.None? ==> dsn !in servers
      ensures servers - {dsn} == old(servers) - {dsn}
      ensures forall s :: s in old(all) && s.dsn != dsn ==> s.closed == old(s.closed)
    {
      if dsn !in servers {
        if !attempt.opens {
          return None;
        }
        var created := new Server(dsn);
        servers := servers[dsn := created];
        all := all + {created};
      }
      var server := servers[dsn];
      var ok := server.Ping(attempt.answers);
      if !ok {
        servers := servers - {dsn};
        return None;
      }
      return Some(server);
    }

    // The retry loop holds the pool lock throughout.
    method GetServer(dsn: string, attempts: seq<Attempt>) returns (r: Option<Server>, errCount: nat)
      requires Valid() && |attempts| >= RETRIES
      modifies this, servers.Values
      ensures Valid() && old(all) <= all && fresh(all - old(all))
      // Success: the pool's entry for this DSN, open and just pinged.
      ensures r.Some? ==> dsn in servers && servers[dsn] == r.value && !r.value.closed
      // Failure: this DSN is absent and everything it had is closed.
      ensures r.None? ==> dsn !in servers && forall s :: s in all && s.dsn == dsn ==> s.closed
      // All other entries are untouched.
      ensures servers - {dsn} == old(servers) - {dsn}
      ensures forall s :: s in old(all) && s.dsn != dsn ==> s.closed == old(s.closed)
      // The number of attempts, and which of the two happens.
      ensures errCount == 1
      ensures r.Some? <==> old(Succeeds(dsn, attempts[0]))
    {
      errCount := 0;
      r := None;
      while errCount < RETRIES
        invariant Valid() && old(all) <= all && fresh(all - old(all))
        invariant errCount <= RETRIES && r == None
        invariant servers - {dsn} == old(servers) - {dsn}
        invariant forall s :: s in old(all) && s.dsn != dsn ==> s.closed == old(s.closed)
        invariant errCount == 0 ==>
          servers == old(servers) && Succeeds(dsn, attempts[0]) == old(Succeeds(dsn, attempts[0]))
        invariant errCount > 0 ==> dsn !in servers && !old(Succeeds(dsn, attempts[0]))
        decreases RETRIES - errCount
      {
        errCount := errCount + 1;
        r := Try(dsn, attempts[errCount - 1]);
        if r.Some? {
          return;
        }
      }
    }

    // Closing leaves the entries in the map, so the next attempt on each of them fails.
    method Close()
      requires Valid()
      modifies servers.Values
      ensures Valid() && forall s :: s in all ==> s.closed
      ensures forall d, attempt :: d in servers ==> !Succeeds(d, attempt)
    {
      var left := servers.Keys;
      while left != {}
        invariant left <= servers.Keys
        invariant forall d :: d in servers && d !in left ==> servers[d].closed
        invariant forall s :: s in all && old(s.closed) ==> s.closed
        decreases |left|
      {
        var d :| d in left;
        left := left - {d};
        servers[d].Close();
      }
      assert forall s :: s in all && !old(s.closed) ==> s.dsn in servers && servers[s.dsn] == s;
    }
  }
}
