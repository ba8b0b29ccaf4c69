/**
 * The older reindexer at the repository root. It fetches users or raw geonames with the same
 * sharded id cursor as the current command, but every loader takes its index and type from one
 * run-wide metadata value instead of from the record, and the commands are `users` and
 * `geonames`. Its users loop is the current one (Users.FetchUsers); its geonames loop and its
 * command table are modelled here.
 */
module Legacy {
  import opened Base
  import opened Cursor
  import opened GeoNames
  import opened Users
  import opened Records
  import opened Channels
  import Drivers
  import Migration

  /** A fetched geoname as sent: prepared. */
  function PreparedRecord(): GeoName -> Record
  {
    (g: GeoName) => GeoNameRecord(g.Prepared())
  }

  /** The inner loop of the root fetchGeoNames over one page: move the cursor, prepare, send. */
  method ReadGeoNamePage(page: seq<GeoName>, lastId0: nat) returns (sent: seq<Record>, lastId: nat, count: nat)
    ensures sent == Migration.MapRows(page, PreparedRecord())
    ensures count == |page|
    ensures lastId == if page == [] then lastId0 else Last(page).geonameid
  {
    sent := [];
    lastId, count := lastId0, 0;
    while count < |page|
      invariant count <= |page|
      invariant sent == Migration.MapRows(page[..count], PreparedRecord())
      invariant lastId == if count == 0 then lastId0 else page[count - 1].geonameid
    {
      var row := page[count];
      lastId := row.GetId();
      row := row.Prepare();
      Migration.MapRowsNext(page, count, PreparedRecord());
      sent := sent + [GeoNameRecord(row)];
      count := count + 1;
    }
    assert page[..count] == page;
  }

  /**
   * The root fetchGeoNames: pages of `geonameid > lastId AND geonameid % n = shard ORDER BY
   * geonameid LIMIT limit` until a page is empty; every geoname the cursor visits is sent,
   * prepared, in order, and counted.
   */
  method FetchGeoNames(table: seq<GeoName>, n: nat, shard: nat, limit: nat) returns (sent: seq<Record>, fetched: nat)
    ensures sent == Migration.MapRows(Visited(table, Migration.GeoNameKey, 0, n, shard, limit), PreparedRecord())
    ensures fetched == |Visited(table, Migration.GeoNameKey, 0, n, shard, limit)|
  {
    sent, fetched := [], 0;
    var lastId: nat := 0;
    ghost var done: seq<GeoName> := [];
    while true
      invariant done + Visited(table, Migration.GeoNameKey, lastId, n, shard, limit)
                == Visited(table, Migration.GeoNameKey, 0, n, shard, limit)
      invariant sent == Migration.MapRows(done, PreparedRecord()) && fetched == |done|
      decreases |RowsAfter(table, Migration.GeoNameKey, lastId, n, shard)|
    {
      var page := Page(table, Migration.GeoNameKey, lastId, n, shard, limit);
      var pageSent, next, lastCount := ReadGeoNamePage(page, lastId);
      if lastCount == 0 {
        assert done == Visited(table, Migration.GeoNameKey, 0, n, shard, limit);
        return;
      }
      Migration.FetchStep(table, n, shard, limit, lastId, done, page, next);
      Migration.MapRowsAppend(done, page, PreparedRecord());
      done := done + page;
      sent := sent + pageSent;
      fetched := fetched + lastCount;
      lastId := next;
    }
  }

  /** What thread `thread` of a root run sends for its command, or None when it panics. */
  function ThreadRecords(command: string, users: seq<User>, geonames: seq<GeoName>, threads: nat, thread: nat, limit: nat)
    : Option<seq<Record>>
  {
    if command == "users" then Drivers.UsersThread(users, threads, thread, limit)
    else Some(Migration.MapRows(Visited(geonames, Migration.GeoNameKey, 0, threads, thread, limit), PreparedRecord()))
  }

  function ThreadOutputs(command: string, users: seq<User>, geonames: seq<GeoName>, threads: nat, limit: nat)
    : nat -> Option<seq<Record>>
  {
    (thread: nat) => ThreadRecords(command, users, geonames, threads, thread, limit)
  }

  /** A geonames run cannot panic: it sends every thread's geonames, thread after thread. */
  lemma {:induction false} GeoNamesNeverPanic(users: seq<User>, geonames: seq<GeoName>, threads: nat, limit: nat, t: nat)
    ensures Drivers.Joined(ThreadOutputs("geonames", users, geonames, threads, limit), t).Some?
  {
    if t > 0 {
      GeoNamesNeverPanic(users, geonames, threads, limit, t - 1);
      assert ThreadOutputs("geonames", users, geonames, threads, limit)(t - 1).Some?;
    }
  }

  /**
   * startFetchUsers and startFetchGeoNames: one fetch goroutine per thread, all joined before
   * the channel is closed. A Prepare panic of the users fetch ends the run.
   */
  method StartFetch(command: string, threads: nat, limit: nat, users: seq<User>, geonames: seq<GeoName>,
                    fetchedRecords: Channel<Record>)
    returns (outcome: Drivers.Outcome)
    requires command == "users" || command == "geonames"
    requires !fetchedRecords.closed
    modifies fetchedRecords
    ensures outcome.Done? || outcome == Drivers.Panic(Drivers.PrepareMessage)
    ensures command == "geonames" ==> outcome.Done?
    ensures outcome.Done? <==> Drivers.Joined(ThreadOutputs(command, users, geonames, threads, limit), threads).Some?
    ensures outcome.Done? ==> (fetchedRecords.closed && fetchedRecords.items == old(fetchedRecords.items)
      + Drivers.Joined(ThreadOutputs(command, users, geonames, threads, limit), threads).value)
  {
    ghost var outputs := ThreadOutputs(command, users, geonames, threads, limit);
    ghost var before := fetchedRecords.items;
    GeoNamesNeverPanic(users, geonames, threads, limit, threads);
    for i := 0 to threads
      invariant !fetchedRecords.closed && Drivers.Joined(outputs, i).Some?
      invariant fetchedRecords.items == before + Drivers.Joined(outputs, i).value
    {
      var sent := FetchThread(command, users, geonames, threads, i, limit);
      if sent.None? {
        Drivers.JoinedPanics(outputs, threads, i);
        return Drivers.Panic(Drivers.PrepareMessage);
      }
      Drivers.JoinedStep(before, outputs, i, sent.value);
      fetchedRecords.SendAll(sent.value);
    }
    fetchedRecords.Close();
    outcome := Drivers.Done;
  }

  /** The body of one root fetch goroutine: fetchUsers or fetchGeoNames for the thread. */
  method FetchThread(command: string, users: seq<User>, geonames: seq<GeoName>, threads: nat, thread: nat, limit: nat)
    returns (sent: Option<seq<Record>>)
    ensures sent == ThreadRecords(command, users, geonames, threads, thread, limit)
  {
    if command == "users" {
      var us, _ := FetchUsers(users, threads, thread, limit);
      if us.None? {
        return None;
      }
      sent := Some(Drivers.UserRecords(us.value));
    } else {
      var records, fetched := FetchGeoNames(geonames, threads, thread, limit);
      sent := Some(records);
    }
  }

  // ------------------------------------------------------------------ the run-wide metadata

  /**
   * The root main's command switch as written: both commands index into the geonames index, an
   * unknown command exits with status 1.
   */
  function MetaAsWritten(command: string): (r: Result<MetaData, nat>)
    ensures r.Err? <==> command != "users" && command != "geonames"
    ensures r.Err? ==> r.error == 1
    ensures r.Ok? ==> r.value == MetaDataESGeoNames
  {
    match command
    case "users" => Ok(MetaDataESGeoNames)
    case "geonames" => Ok(MetaDataESGeoNames)
    case _ => Err(1)
  }

  /**
   * As written, every user of a root `users` run is indexed into "geonames" with type
   * "geonames", where the current command indexes it into "users".
   */
  lemma UsersIndexedAsGeoNames(u: User)
    ensures MetaAsWritten("users").Ok?
    ensures var h := OpHeader(UserRecord(u), FixedMeta(MetaAsWritten("users").value));
      h.index == "geonames" && h.typ == "geonames"
      && h.index != OpHeader(UserRecord(u), OwnMeta).index
  {
  }

  /** The command switch as evidently intended: users go to the users index. */
  function MetaFor(command: string): (r: Result<MetaData, nat>)
    ensures r.Err? <==> command != "users" && command != "geonames"
    ensures r.Err? ==> r.error == 1
  {
    match command
    case "users" => Ok(MetaDataESUsers)
    case "geonames" => Ok(MetaDataESGeoNames)
    case _ => Err(1)
  }

  /**
   * With the intended metadata, a root `users` run indexes every user exactly where the current
   * command does (index, type and id), and a `geonames` run uses the geonames index.
   */
  lemma MetaForMatchesRecords(u: User, g: GeoName)
    ensures var h := OpHeader(UserRecord(u), FixedMeta(MetaFor("users").value));
      var own := OpHeader(UserRecord(u), OwnMeta);
      h.index == own.index && h.typ == own.typ && h.id == own.id
    ensures var h := OpHeader(GeoNameRecord(g), FixedMeta(MetaFor("geonames").value));
      h.index == "geonames" && h.typ == "geonames"
  {
  }

  /**
   * The root main: pick the metadata as written (or exit 1 on an unknown command), fetch into
   * the channel, which is closed once every fetcher is done. The loaders that drain it are
   * Loader's, with FixedMeta(metadata) as their source, so a `users` run indexes its users under
   * the geonames metadata (see UsersIndexedAsGeoNames).
   */
  method RunRoot(command: string, threads: nat, limit: nat, users: seq<User>, geonames: seq<GeoName>,
              fetchedRecords: Channel<Record>)
    returns (outcome: Drivers.Outcome, meta: Option<MetaData>)
    requires !fetchedRecords.closed
    modifies fetchedRecords
    ensures command != "users" && command != "geonames" ==>
      outcome == Drivers.Exit(1) && fetchedRecords.items == old(fetchedRecords.items)
    ensures outcome.Done? ==> meta.Some? && meta.value == MetaAsWritten(command).value
    ensures outcome.Done? ==> meta == Some(MetaDataESGeoNames)
    ensures outcome.Done? ==> Drivers.Joined(ThreadOutputs(command, users, geonames, threads, limit), threads).Some?
    ensures outcome.Done? ==> (fetchedRecords.closed && fetchedRecords.items == old(fetchedRecords.items)
      + Drivers.Joined(ThreadOutputs(command, users, geonames, threads, limit), threads).value)
  {
    var selected := MetaAsWritten(command);
    if selected.Err? {
      return Drivers.Exit(selected.error), None;
    }
    meta := Some(selected.value);
    outcome := StartFetch(command, threads, limit, users, geonames, fetchedRecords);
  }
}
