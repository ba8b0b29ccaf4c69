/**
 * The reindexer's command line and fetch drivers: which command runs against which database,
 * the flags of the delta mode, the fetch goroutines of `users` and `geo` started one per thread
 * and joined before the record channel is closed, and the delta fetch of the most recently
 * signed-up, logged-in or modified users.
 */
module Drivers {
  import opened Base
  import opened Cursor
  import opened Users
  import opened Records
  import opened Channels
  import GeoFetch
  import GeoFold
  import GeoNames

  // ------------------------------------------------------------------ command and flags

  datatype Database = UsersDatabase | GeoDatabase

  /** What a run ends with: normally, by os.Exit with a status, or by a panic. */
  datatype Outcome = Done | Exit(status: nat) | Panic(message: string)

  /**
   * main's first switch: `users-delta` falls through to `users`, both read the users database
   * as model "users"; `geo` reads the geo database; anything else prints the usage and exits
   * with status 1.
   */
  function SelectCommand(command: string): (r: Result<(Database, string), nat>)
  {
    match command
    case "users-delta" => Ok((UsersDatabase, "users"))
    case "users" => Ok((UsersDatabase, "users"))
    case "geo" => Ok((GeoDatabase, "geo"))
    case _ => Err(1)
  }

  /** The three commands are the only ones accepted; the delta mode runs on the users setup. */
  lemma SelectCommandSpec(command: string)
    ensures SelectCommand(command).Err? <==> command != "users" && command != "geo" && command != "users-delta"
    ensures SelectCommand(command).Err? ==> SelectCommand(command).error == 1
    ensures SelectCommand("users-delta") == SelectCommand("users") == Ok((UsersDatabase, "users"))
    ensures SelectCommand("geo") == Ok((GeoDatabase, "geo"))
  {
  }

  const SortFieldMessage: string := "Sort field must be [signup, last_login, modified]"
  const TotalMessage: string := "Total must be 100 < x < 100k"

  /** The checks main makes of `-field` and `-total` before a delta run. */
  function ValidateDelta(field: string, total: nat): (r: Result<(), string>)
  {
    if field != "signup" && field != "last_login" && field != "modified" then Err(SortFieldMessage)
    else if total < 100 || total > 100000 then Err(TotalMessage)
    else Ok(())
  }

  /**
   * A delta run goes ahead exactly when the sort field is one of the three columns and the
   * total lies between 100 and 100000, both bounds included (the panic message reads as if
   * they were excluded). The field is checked first.
   */
  lemma DeltaFlagsAccepted(field: string, total: nat)
    ensures ValidateDelta(field, total).Ok? <==>
      (field == "signup" || field == "last_login" || field == "modified") && 100 <= total <= 100000
    ensures ValidateDelta(field, total).Err? ==>
      (ValidateDelta(field, total).error == SortFieldMessage <==>
         field != "signup" && field != "last_login" && field != "modified")
  {
  }

  // ------------------------------------------------------------------ startFetch

  function UserRecords(us: seq<User>): seq<Record>
  {
    seq(|us|, i requires 0 <= i < |us| => UserRecord(us[i]))
  }

  function GeoRecords(docs: seq<GeoNames.GNItem>): seq<Record>
  {
    seq(|docs|, i requires 0 <= i < |docs| => GeoItem(docs[i]))
  }

  /** Whether fetchGeoNames panics: the first country row has no id, so its country is never opened. */
  predicate GeoPanics(t: GeoFetch.GeoTables)
  {
    t.countries != [] && t.countries[0].geonameid == 0
  }

  /** The documents fetchGeoNames sends for one thread. */
  function GeoThreadDocs(t: GeoFetch.GeoTables, threads: nat, thread: nat, limit: nat): seq<GeoNames.GNItem>
  {
    var cache := GeoFold.CacheOf(t.countries);
    (if thread == 0 then GeoFold.FoldAll(Runs(t.countries, GeoFold.CountryKey), (), GeoFold.CountryRecipe) else [])
    + GeoFold.PagesDocs(GroupPages(t.admin1Keys, t.regions, GeoFold.RegionKey, 0, threads, thread, limit),
                        GeoFold.RegionKey, cache, GeoFold.RegionRecipe)
    + GeoFold.PagesDocs(GroupPages(GeoFold.AllPlaceKeys(t.places), t.cities, GeoFold.CityKey, 0, threads, thread, limit),
                        GeoFold.CityKey, cache, GeoFold.CityRecipe)
  }

  /** What fetchUsers sends for one thread: its shard's users, prepared; None when one panics. */
  function UsersThread(users: seq<User>, threads: nat, thread: nat, limit: nat): Option<seq<Record>>
  {
    match PreparedAll(Visited(users, UserKey, 0, threads, thread, limit))
    case None => None
    case Some(us) => Some(UserRecords(us))
  }

  /** What thread `thread` of a `command` run sends, or None when it panics. */
  function ThreadRecords(command: string, users: seq<User>, geo: GeoFetch.GeoTables, threads: nat, thread: nat, limit: nat)
    : Option<seq<Record>>
  {
    if command == "users" then UsersThread(users, threads, thread, limit)
    else if command == "geo" then
      if GeoPanics(geo) then None else Some(GeoRecords(GeoThreadDocs(geo, threads, thread, limit)))
    else None
  }

  /** ThreadRecords for one run, as a function of the thread number. */
  function ThreadOutputs(command: string, users: seq<User>, geo: GeoFetch.GeoTables, threads: nat, limit: nat)
    : nat -> Option<seq<Record>>
  {
    (thread: nat) => ThreadRecords(command, users, geo, threads, thread, limit)
  }

  /** What threads 0 to t - 1 send, thread after thread, or None when one of them panics. */
  function Joined(outputs: nat -> Option<seq<Record>>, t: nat): Option<seq<Record>>
  {
    if t == 0 then Some([])
    else match Joined(outputs, t - 1)
      case None => None
      case Some(before) =>
        match outputs(t - 1)
        case None => None
        case Some(rs) => Some(before + rs)
  }

  /** A thread that panics ends the run, whatever the other threads do. */
  lemma {:induction false} JoinedPanics(outputs: nat -> Option<seq<Record>>, t: nat, bad: nat)
    requires bad < t && outputs(bad).None?
    ensures Joined(outputs, t).None?
  {
    if bad < t - 1 {
      JoinedPanics(outputs, t - 1, bad);
    }
  }

  /** One more thread that finishes appends what it sent. */
  lemma JoinedStep(before: seq<Record>, outputs: nat -> Option<seq<Record>>, t: nat, sent: seq<Record>)
    requires Joined(outputs, t).Some? && outputs(t) == Some(sent)
    ensures Joined(outputs, t + 1) == Some(Joined(outputs, t).value + sent)
    ensures before + Joined(outputs, t).value + sent == before + Joined(outputs, t + 1).value
  {
    AppendAssoc(before, Joined(outputs, t).value, sent);
  }

  /** When every thread finishes, the run sends what each sends, thread after thread. */
  lemma {:induction false} JoinedAll(outputs: nat -> Option<seq<Record>>, t: nat)
    ensures Joined(outputs, t).Some? <==> forall i :: 0 <= i < t ==> outputs(i).Some?
  {
    if t > 0 {
      JoinedAll(outputs, t - 1);
      if outputs(t - 1).None? {
        JoinedPanics(outputs, t, t - 1);
      }
    }
  }

  /** What the threads of a `command` run send, or None when one of them panics. */
  function Fetched(command: string, users: seq<User>, geo: GeoFetch.GeoTables, threads: nat, limit: nat): Option<seq<Record>>
  {
    Joined(ThreadOutputs(command, users, geo, threads, limit), threads)
  }

  /**
   * An unknown command panics only once a thread is started for it: with no threads nothing is
   * fetched and the run goes on.
   */
  lemma FetchedUnknownCommand(command: string, users: seq<User>, geo: GeoFetch.GeoTables, threads: nat, limit: nat)
    requires command != "users" && command != "geo"
    ensures Fetched(command, users, geo, threads, limit) == if threads == 0 then Some([]) else None
  {
    if threads > 0 {
      JoinedPanics(ThreadOutputs(command, users, geo, threads, limit), threads, 0);
    }
  }

  /** A geo run panics exactly when the country table's first row has no id, whatever the thread count. */
  lemma GeoFetchedPanics(users: seq<User>, geo: GeoFetch.GeoTables, threads: nat, limit: nat)
    ensures Fetched("geo", users, geo, threads, limit).None? <==> threads > 0 && GeoPanics(geo)
  {
    JoinedAll(ThreadOutputs("geo", users, geo, threads, limit), threads);
    if threads > 0 && GeoPanics(geo) {
      assert ThreadOutputs("geo", users, geo, threads, limit)(0).None?;
    }
  }

  /**
   * With unique ids in ascending order and a positive LIMIT, a users thread sends every user
   * of its shard with a positive id, prepared, in id order.
   */
  lemma UsersThreadIsShard(users: seq<User>, threads: nat, thread: nat, limit: nat)
    requires StrictlySortedBy(users, UserKey) && limit > 0
    requires UsersThread(users, threads, thread, limit).Some?
    ensures var rs := UsersThread(users, threads, thread, limit).value;
      var shard := RowsAfter(users, UserKey, 0, threads, thread);
      |rs| == |shard| && forall i :: 0 <= i < |rs| ==> shard[i].Prepared().Some? && rs[i] == UserRecord(shard[i].Prepared().value)
  {
    FetchUsersCoversShard(users, threads, thread, limit);
    PreparedAllIds(Visited(users, UserKey, 0, threads, thread, limit));
  }

  /**
   * startFetch: one fetch goroutine per thread, each for the command's model, joined before the
   * channel is closed. An unknown command panics when the first thread would be started. The
   * goroutines' sends interleave in any order in Go; here thread i sends after thread i - 1.
   */
  method StartFetch(command: string, threads: nat, limit: nat, users: seq<User>, geo: GeoFetch.GeoTables,
                    eschan: Channel<Record>)
    returns (outcome: Outcome)
    requires !eschan.closed
    modifies eschan
    ensures outcome.Done? <==> Fetched(command, users, geo, threads, limit).Some?
    ensures !outcome.Exit?
    ensures threads > 0 && command != "users" && command != "geo" ==> outcome == Panic(UnknownCommandMessage)
    ensures outcome.Done? ==> (eschan.closed
      && eschan.items == old(eschan.items) + Fetched(command, users, geo, threads, limit).value)
  {
    ghost var outputs := ThreadOutputs(command, users, geo, threads, limit);
    ghost var before := eschan.items;
    for i := 0 to threads
      invariant !eschan.closed && Joined(outputs, i).Some?
      invariant eschan.items == before + Joined(outputs, i).value
    {
      var sent, message := FetchThread(command, users, geo, threads, i, limit);
      if sent.None? {
        assert outputs(i).None?;
        JoinedPanics(outputs, threads, i);
        return Panic(message);
      }
      JoinedStep(before, outputs, i, sent.value);
      eschan.SendAll(sent.value);
    }
    eschan.Close();
    outcome := Done;
  }

  const UnknownCommandMessage: string := "Unknown command to process"
  /** Stands for the strconv error Prepare panics with on a language level that is not a uint8. */
  const PrepareMessage: string := "strconv.ParseUint: invalid level"
  /** Stands for the runtime error of a write to the zero-valued country document's nil map. */
  const NilMapMessage: string := "assignment to entry in nil map"

  /**
   * The body of one fetch goroutine: fetchUsers or fetchGeoNames for the thread, or the panic of
   * the switch's default case.
   */
  method FetchThread(command: string, users: seq<User>, geo: GeoFetch.GeoTables, threads: nat, thread: nat, limit: nat)
    returns (sent: Option<seq<Record>>, message: string)
    ensures sent == ThreadRecords(command, users, geo, threads, thread, limit)
    ensures command != "users" && command != "geo" ==> message == UnknownCommandMessage
  {
    message := UnknownCommandMessage;
    if command == "users" {
      var us, _ := FetchUsers(users, threads, thread, limit);
      if us.None? {
        return None, PrepareMessage;
      }
      sent := Some(UserRecords(us.value));
    } else if command == "geo" {
      var panicked, docs, _ := GeoFetch.FetchGeoNames(geo, threads, thread, limit);
      if panicked {
        return None, NilMapMessage;
      }
      sent := Some(GeoRecords(docs));
    } else {
      sent := None;
    }
  }

  // ------------------------------------------------------------------ startFetchDelta

  /** s, k times over. */
  function Repeat<T>(s: seq<T>, k: nat): seq<T>
  {
    if k == 0 then [] else Repeat(s, k - 1) + s
  }

  /**
   * How many pages the delta loop reads when every page holds `pageSize` rows and `total` have
   * been counted: it stops on an empty page, or once the running total reaches `maxTotal`.
   */
  function DeltaRounds(pageSize: nat, total: nat, maxTotal: nat): nat
    decreases maxTotal - total
  {
    if pageSize == 0 then 0
    else if total + pageSize >= maxTotal then 1
    else 1 + DeltaRounds(pageSize, total + pageSize, maxTotal)
  }

  /** The cap: the last page reached maxTotal, the page before it did not. */
  lemma {:induction false} DeltaStopsAtCap<T>(page: seq<T>, total: nat, maxTotal: nat)
    requires page != []
    ensures var k := DeltaRounds(|page|, total, maxTotal);
      k >= 1 && total + |Repeat(page, k)| >= maxTotal && (k == 1 || total + |Repeat(page, k - 1)| < maxTotal)
    decreases maxTotal - total
  {
    var k := DeltaRounds(|page|, total, maxTotal);
    if total + |page| < maxTotal {
      DeltaStopsAtCap(page, total + |page|, maxTotal);
      RepeatShift(page, k - 1);
      if k > 2 {
        RepeatShift(page, k - 2);
      }
    }
  }

  /** Repeating once more puts one more copy in front. */
  lemma {:induction false} RepeatShift<T>(s: seq<T>, k: nat)
    ensures Repeat(s, k + 1) == s + Repeat(s, k)
  {
    if k > 0 {
      RepeatShift(s, k - 1);
      AppendAssoc(s, Repeat(s, k - 1), s);
    }
  }

  /**
   * What the delta loop sends when every round reads `page`: the page prepared, as many times
   * as there are rounds; None when a user of it panics in Prepare.
   */
  function DeltaSent(page: seq<User>, maxTotal: nat): Option<seq<User>>
  {
    match PreparedAll(page)
    case None => None
    case Some(prepared) => Some(Repeat(prepared, DeltaRounds(|page|, 0, maxTotal)))
  }

  const ModelMessage: string := "Model is not supported, only user supported now"

  /**
   * startFetchDelta: only model "users"; the query `ORDER BY <field> DESC LIMIT <limit>` with no
   * cursor, repeated until a page is empty or the running total reaches maxTotalFetch; then the
   * channel is closed. `ranked` is the activated, searchable users in the order of the sort field,
   * so every round reads its first `limit` users.
   */
  method StartFetchDelta(model: string, maxTotalFetch: nat, limit: nat, ranked: seq<User>, users: Channel<Record>)
    returns (outcome: Outcome, totalCount: nat)
    requires !users.closed
    modifies users
    ensures model != "users" ==> outcome == Panic(ModelMessage) && users.items == old(users.items)
    ensures !outcome.Exit?
    ensures model == "users" ==> (outcome.Done? <==> DeltaSent(Take(ranked, limit), maxTotalFetch).Some?)
    ensures outcome.Done? ==> (users.closed
      && users.items == old(users.items) + UserRecords(DeltaSent(Take(ranked, limit), maxTotalFetch).value)
      && totalCount == |DeltaSent(Take(ranked, limit), maxTotalFetch).value|)
  {
    if model != "users" {
      return Panic(ModelMessage), 0;
    }
    var sent;
    sent, totalCount := DeltaRoundsOf(Take(ranked, limit), maxTotalFetch, users);
    if sent.None? {
      return Panic(PrepareMessage), totalCount;
    }
    users.Close();
    outcome := Done;
  }

  /** The delta loop proper, reading `page` every round, up to the channel's close. */
  method DeltaRoundsOf(page: seq<User>, maxTotalFetch: nat, users: Channel<Record>)
    returns (sent: Option<seq<User>>, totalCount: nat)
    requires !users.closed
    modifies users
    ensures !users.closed
    ensures sent == DeltaSent(page, maxTotalFetch)
    ensures sent.Some? ==> users.items == old(users.items) + UserRecords(sent.value) && totalCount == |sent.value|
  {
    totalCount := 0;
    ghost var before := users.items;
    var out: seq<User> := [];
    ghost var rounds: nat := 0;
    while true
      invariant !users.closed
      invariant users.items == before + UserRecords(out) && totalCount == |out|
      invariant rounds == 0 ==> out == []
      invariant rounds > 0 ==>
        PreparedAll(page).Some? && out == Repeat(PreparedAll(page).value, rounds) && totalCount < maxTotalFetch && page != []
      invariant page != [] ==> DeltaRounds(|page|, 0, maxTotalFetch) == rounds + DeltaRounds(|page|, totalCount, maxTotalFetch)
      decreases maxTotalFetch - totalCount
    {
      var pageSent, _, lastCount := ReadUsersPage(page, 0);
      if pageSent.None? {
        return None, totalCount;
      }
      if lastCount == 0 {
        assert page == [] && out == [];
        return Some([]), totalCount;
      }
      PreparedAllIds(page);
      DeltaRound(before, out, pageSent.value);
      DeltaAdvance(PreparedAll(page).value, rounds, |page|, totalCount, maxTotalFetch);
      users.SendAll(UserRecords(pageSent.value));
      out := out + pageSent.value;
      rounds := rounds + 1;
      totalCount := totalCount + lastCount;
      if totalCount >= maxTotalFetch {
        break;
      }
    }
    sent := Some(out);
  }

  /** The round count after one more round: either the cap is reached or the count goes on. */
  lemma DeltaAdvance(prepared: seq<User>, rounds: nat, pageSize: nat, total: nat, maxTotal: nat)
    requires pageSize > 0 && DeltaRounds(pageSize, 0, maxTotal) == rounds + DeltaRounds(pageSize, total, maxTotal)
    ensures total + pageSize >= maxTotal ==> DeltaRounds(pageSize, 0, maxTotal) == rounds + 1
    ensures total + pageSize < maxTotal ==>
      DeltaRounds(pageSize, 0, maxTotal) == rounds + 1 + DeltaRounds(pageSize, total + pageSize, maxTotal)
    ensures Repeat(prepared, rounds + 1) == Repeat(prepared, rounds) + prepared
  {
  }

  /** One more round of the delta loop: the page's users are appended after what was sent. */
  lemma DeltaRound(before: seq<Record>, sent: seq<User>, prepared: seq<User>)
    ensures before + UserRecords(sent) + UserRecords(prepared) == before + UserRecords(sent + prepared)
  {
    var a, b, c := UserRecords(sent), UserRecords(prepared), UserRecords(sent + prepared);
    forall i | 0 <= i < |c| ensures (a + b)[i] == c[i] {
      if i < |sent| {
        assert (a + b)[i] == a[i];
      } else {
        assert (a + b)[i] == b[i - |sent|];
      }
    }
    assert a + b == c;
    AppendAssoc(before, a, b);
  }

  // ------------------------------------------------------------------ the delta's repeated page

  /**
   * As written, the delta query has no cursor and no OFFSET, so every round reads the same first
   * `limit` users: whenever that page is shorter than maxTotalFetch, it is sent at least twice,
   * and the first user is sent again right after the last user of the page.
   */
  lemma DeltaRepeatsPage(ranked: seq<User>, limit: nat, maxTotal: nat)
    requires Take(ranked, limit) != [] && |Take(ranked, limit)| < maxTotal
    requires DeltaSent(Take(ranked, limit), maxTotal).Some?
    ensures var sent := DeltaSent(Take(ranked, limit), maxTotal).value;
      |sent| >= 2 * |Take(ranked, limit)| && sent[0] == sent[|Take(ranked, limit)|]
  {
    var page := Take(ranked, limit);
    var prepared := PreparedAll(page).value;
    PreparedAllIds(page);
    var k := DeltaRounds(|page|, 0, maxTotal);
    assert DeltaRounds(|page|, |page|, maxTotal) >= 1;
    RepeatShift(prepared, k - 1);
    RepeatShift(prepared, k - 2);
    assert Repeat(prepared, k) == prepared + (prepared + Repeat(prepared, k - 2));
  }

  /**
   * The delta as evidently intended: each round reads the next `limit` users (OFFSET by the users
   * read so far), so the loop stops after the first round that brings the count to maxTotal,
   * or on an empty page. The result is the number of users read.
   */
  function DeltaPagedCount(ranked: seq<User>, limit: nat, maxTotal: nat, offset: nat): (count: nat)
    requires offset <= |ranked|
    ensures offset <= count <= |ranked|
    decreases |ranked| - offset
  {
    var page := Take(ranked[offset..], limit);
    if page == [] then offset
    else if offset + |page| >= maxTotal then offset + |page|
    else DeltaPagedCount(ranked, limit, maxTotal, offset + |page|)
  }

  /**
   * Paged by offset, the delta stops at the first page boundary at or beyond maxTotal, or when
   * the ranked users run out (or LIMIT is 0), and never reads more than one page past the cap.
   */
  lemma {:induction false} DeltaPagedBounds(ranked: seq<User>, limit: nat, maxTotal: nat, offset: nat)
    requires offset <= |ranked| && (offset == 0 || offset < maxTotal)
    ensures var count := DeltaPagedCount(ranked, limit, maxTotal, offset);
      (count >= maxTotal || count == |ranked| || limit == 0)
      && (count == offset || count <= (if offset < maxTotal then maxTotal else offset) + limit)
    decreases |ranked| - offset
  {
    var page := Take(ranked[offset..], limit);
    if page != [] && offset + |page| < maxTotal {
      DeltaPagedBounds(ranked, limit, maxTotal, offset + |page|);
    }
  }

  /**
   * The corrected delta loop: the same rounds with an OFFSET cursor. It sends the first `count`
   * ranked users, prepared, in order, each once.
   */
  method StartFetchDeltaPaged(model: string, maxTotalFetch: nat, limit: nat, ranked: seq<User>, users: Channel<Record>)
    returns (outcome: Outcome, totalCount: nat)
    requires !users.closed
    modifies users
    ensures model != "users" ==> outcome == Panic(ModelMessage) && users.items == old(users.items)
    ensures !outcome.Exit?
    ensures model == "users" ==>
      (outcome.Done? <==> PreparedAll(ranked[..DeltaPagedCount(ranked, limit, maxTotalFetch, 0)]).Some?)
    ensures outcome.Done? ==> (users.closed && totalCount == DeltaPagedCount(ranked, limit, maxTotalFetch, 0)
      && users.items == old(users.items) + UserRecords(PreparedAll(ranked[..totalCount]).value))
  {
    if model != "users" {
      return Panic(ModelMessage), 0;
    }
    var sent;
    sent, totalCount := DeltaPagesOf(ranked, limit, maxTotalFetch, users);
    if sent.None? {
      return Panic(PrepareMessage), totalCount;
    }
    users.Close();
    outcome := Done;
  }

  /** The corrected loop proper: pages of `limit` ranked users from an advancing offset. */
  method DeltaPagesOf(ranked: seq<User>, limit: nat, maxTotalFetch: nat, users: Channel<Record>)
    returns (sent: Option<seq<User>>, offset: nat)
    requires !users.closed
    modifies users
    ensures !users.closed && offset == DeltaPagedCount(ranked, limit, maxTotalFetch, 0)
    ensures sent == PreparedAll(ranked[..offset])
    ensures sent.Some? ==> users.items == old(users.items) + UserRecords(sent.value)
  {
    offset := 0;
    ghost var before := users.items;
    var out: seq<User> := [];
    while true
      invariant offset <= |ranked| && !users.closed
      invariant DeltaPagedCount(ranked, limit, maxTotalFetch, 0) == DeltaPagedCount(ranked, limit, maxTotalFetch, offset)
      invariant offset == 0 || offset < maxTotalFetch
      invariant PreparedAll(ranked[..offset]) == Some(out)
      invariant users.items == before + UserRecords(out)
      decreases |ranked| - offset
    {
      var pageSent, next, out' := DeltaNextPage(ranked, limit, maxTotalFetch, offset, out, users, before);
      if pageSent.None? {
        return None, DeltaPagedCount(ranked, limit, maxTotalFetch, 0);
      }
      if next == offset {
        break;
      }
      out, offset := out', next;
      if offset >= maxTotalFetch {
        break;
      }
    }
    sent := Some(out);
  }

  /**
   * One round of the corrected delta: read the page at `offset`, prepare it and send it. Returns
   * the offset after the page (the same offset when the page is empty).
   */
  method DeltaNextPage(ranked: seq<User>, limit: nat, maxTotalFetch: nat, offset: nat, out: seq<User>,
                       users: Channel<Record>, ghost before: seq<Record>)
    returns (pageSent: Option<seq<User>>, next: nat, out': seq<User>)
    requires offset <= |ranked| && !users.closed
    requires PreparedAll(ranked[..offset]) == Some(out) && users.items == before + UserRecords(out)
    modifies users
    ensures !users.closed && offset <= next <= |ranked|
    ensures pageSent.None? ==> PreparedAll(ranked[..DeltaPagedCount(ranked, limit, maxTotalFetch, offset)]).None?
    ensures next == offset ==> users.items == old(users.items)
    ensures pageSent.Some? && next == offset ==> DeltaPagedCount(ranked, limit, maxTotalFetch, offset) == offset
    ensures pageSent.Some? && next > offset ==>
      DeltaAdvanced(ranked, limit, maxTotalFetch, offset, next, out') && users.items == before + UserRecords(out')
  {
    var page := Take(ranked[offset..], limit);
    var sentPage, _, lastCount := ReadUsersPage(page, 0);
    pageSent := sentPage;
    next, out' := offset, out;
    if pageSent.None? {
      DeltaPagePanics(ranked, limit, maxTotalFetch, offset);
      return;
    }
    if lastCount == 0 {
      return;
    }
    assert lastCount == |page|;
    next := offset + lastCount;
    DeltaPageAdvance(ranked, limit, maxTotalFetch, offset, out, pageSent.value, next);
    DeltaRound(before, out, pageSent.value);
    users.SendAll(UserRecords(pageSent.value));
    out' := out + pageSent.value;
  }

  /**
   * After a non-empty page ending at `next`, the users read so far are the first `next`, prepared
   * as `out`, and the rounds left are those from `next`, unless the cap is reached.
   */
  ghost predicate DeltaAdvanced(ranked: seq<User>, limit: nat, maxTotal: nat, offset: nat, next: nat, out: seq<User>)
    requires offset <= |ranked|
  {
    next <= |ranked| && PreparedAll(ranked[..next]) == Some(out)
    && DeltaPagedCount(ranked, limit, maxTotal, offset)
       == if next >= maxTotal then next else DeltaPagedCount(ranked, limit, maxTotal, next)
  }

  lemma DeltaPageAdvance(ranked: seq<User>, limit: nat, maxTotal: nat, offset: nat, out: seq<User>, prepared: seq<User>,
                         next: nat)
    requires offset <= |ranked| && PreparedAll(ranked[..offset]) == Some(out)
    requires Take(ranked[offset..], limit) != [] && PreparedAll(Take(ranked[offset..], limit)) == Some(prepared)
    requires next == offset + |Take(ranked[offset..], limit)|
    ensures DeltaAdvanced(ranked, limit, maxTotal, offset, next, out + prepared)
  {
    var page := Take(ranked[offset..], limit);
    assert page == ranked[offset..next];
    DeltaPageStep(ranked, offset, next, page, out, prepared);
    DeltaPagedNext(ranked, limit, maxTotal, offset, next);
  }

  /** One round of the corrected delta: the page's users extend the prefix read so far. */
  lemma DeltaPageStep(ranked: seq<User>, offset: nat, next: nat, page: seq<User>, out: seq<User>, prepared: seq<User>)
    requires offset <= next <= |ranked| && page == ranked[offset..next]
    requires PreparedAll(ranked[..offset]) == Some(out) && PreparedAll(page) == Some(prepared)
    ensures PreparedAll(ranked[..next]) == Some(out + prepared)
  {
    assert ranked[..offset] + page == ranked[..next];
    PreparedAllAppend(ranked[..offset], page);
  }

  /** The count after a non-empty page: that page's end, or the count from there on. */
  lemma DeltaPagedNext(ranked: seq<User>, limit: nat, maxTotal: nat, offset: nat, next: nat)
    requires offset <= |ranked| && Take(ranked[offset..], limit) != []
    requires next == offset + |Take(ranked[offset..], limit)|
    ensures DeltaPagedCount(ranked, limit, maxTotal, offset)
      == if next >= maxTotal then next else DeltaPagedCount(ranked, limit, maxTotal, next)
  {
  }

  /** A page whose preparation panics lies inside the users the corrected delta reads. */
  lemma DeltaPagePanics(ranked: seq<User>, limit: nat, maxTotal: nat, offset: nat)
    requires offset <= |ranked|
    requires PreparedAll(ranked[..offset]).Some? && PreparedAll(Take(ranked[offset..], limit)).None?
    ensures PreparedAll(ranked[..DeltaPagedCount(ranked, limit, maxTotal, offset)]).None?
  {
    var next := offset + |Take(ranked[offset..], limit)|;
    var count := DeltaPagedCount(ranked, limit, maxTotal, offset);
    PreparedAllAppend(ranked[..offset], Take(ranked[offset..], limit));
    assert ranked[..offset] + Take(ranked[offset..], limit) == ranked[..next];
    DeltaPagedReachesPage(ranked, limit, maxTotal, offset);
    assert ranked[..count] == ranked[..next] + ranked[next..count];
    PreparedAllAppend(ranked[..next], ranked[next..count]);
  }

  /** The corrected delta reads at least the page at its current offset. */
  lemma {:induction false} DeltaPagedReachesPage(ranked: seq<User>, limit: nat, maxTotal: nat, offset: nat)
    requires offset <= |ranked|
    ensures offset + |Take(ranked[offset..], limit)| <= DeltaPagedCount(ranked, limit, maxTotal, offset)
    decreases |ranked| - offset
  {
  }

  /** With distinct ids among the ranked users, the corrected delta sends no user twice. */
  lemma DeltaPagedOnce(ranked: seq<User>, count: nat)
    requires count <= |ranked| && PreparedAll(ranked[..count]).Some?
    requires forall i, j :: 0 <= i < j < |ranked| ==> ranked[i].id != ranked[j].id
    ensures var sent := PreparedAll(ranked[..count]).value;
      |sent| == count && forall i, j :: 0 <= i < j < count ==> sent[i].id != sent[j].id
  {
    PreparedAllIds(ranked[..count]);
  }

  // ------------------------------------------------------------------ main

  /**
   * main after the flags: the first switch picks the database (an unknown command exits with
   * status 1 before anything is fetched); `users-delta` checks its flags and runs the delta
   * fetch as written, which re-reads its first page every round (see DeltaRepeatsPage);
   * `users` and `geo` run startFetch, whose city keys are the sub-query as written. The loaders that drain the
   * channel are Loader.StartProcessing; the five-second sleep before them is left out.
   */
  method RunReindexer(command: string, field: string, maxTotalFetch: nat, threads: nat, limit: nat,
                      users: seq<User>, ranked: seq<User>, geo: GeoFetch.GeoTables, fetchedRecords: Channel<Record>)
    returns (outcome: Outcome)
    requires !fetchedRecords.closed
    modifies fetchedRecords
    ensures SelectCommand(command).Err? ==> outcome == Exit(1) && fetchedRecords.items == old(fetchedRecords.items)
    ensures command == "users-delta" && ValidateDelta(field, maxTotalFetch).Err? ==>
      outcome == Panic(ValidateDelta(field, maxTotalFetch).error) && fetchedRecords.items == old(fetchedRecords.items)
    ensures command == "users-delta" && ValidateDelta(field, maxTotalFetch).Ok? ==>
      (outcome.Done? <==> DeltaSent(Take(ranked, limit), maxTotalFetch).Some?)
      && (outcome.Done? ==>
            fetchedRecords.closed && fetchedRecords.items == old(fetchedRecords.items)
            + UserRecords(DeltaSent(Take(ranked, limit), maxTotalFetch).value))
    ensures (command == "users" || command == "geo") ==>
      (outcome.Done? <==> Fetched(command, users, geo, threads, limit).Some?)
      && (outcome.Done? ==>
            fetchedRecords.closed && fetchedRecords.items == old(fetchedRecords.items)
            + Fetched(command, users, geo, threads, limit).value)
  {
    var selected := SelectCommand(command);
    if selected.Err? {
      return Exit(selected.error);
    }
    var (_, model) := selected.value;
    if command == "users-delta" {
      var valid := ValidateDelta(field, maxTotalFetch);
      if valid.Err? {
        return Panic(valid.error);
      }
      var totalCount;
      outcome, totalCount := StartFetchDelta(model, maxTotalFetch, limit, ranked, fetchedRecords);
    } else {
      outcome := StartFetch(command, threads, limit, users, geo, fetchedRecords);
    }
  }
}
