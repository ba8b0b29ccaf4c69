/**
 * The geo database migration: every geoname of a thread's shard becomes one gn_object row and
 * one gn_object_alternatenames row; two batchers write each table with positional multi-row
 * INSERT statements of at most 100 rows. The command under cmd/geo-db-migration and the older
 * copy at the repository root differ in three places, kept here as a Snapshot parameter: the
 * older copy does not Prepare the row, gives every geoname whose admin-1 code is known a
 * region (countries and states included), and writes its alternate names as fetched.
 */
module Migration {
  import opened Base
  import opened Strings
  import opened Cursor
  import opened GeoNames
  import opened Records
  import opened Batches
  import opened Channels
  import opened SqlBatch

  datatype Snapshot = Current | Older

  /** The admin-1 codes by "<country>.<admin1>". */
  type AdminCodes = map<string, GeoAdmin1Code>

  function AdminKey(g: GeoName): string
  {
    g.country + "." + g.admin1
  }

  /**
   * The region a geoname is filed under: the geoname of its admin-1 code when that code is
   * known. The current command gives none to feature class A (countries, states, regions).
   */
  function RegionOf(g: GeoName, codes: AdminCodes, snapshot: Snapshot): (region: Option<nat>)
    ensures region.Some? <==> AdminKey(g) in codes && (snapshot.Older? || g.fclass != "A")
    ensures region.Some? ==> region.value == codes[AdminKey(g)].geonameid
  {
    if snapshot.Current? && g.fclass == "A" then None
    else if AdminKey(g) in codes then Some(codes[AdminKey(g)].geonameid)
    else None
  }

  /** The two copies agree except on feature class A, where only the older one sets a region. */
  lemma RegionSnapshotsDiffer(g: GeoName, codes: AdminCodes)
    ensures g.fclass != "A" ==> RegionOf(g, codes, Current) == RegionOf(g, codes, Older)
    ensures g.fclass == "A" ==>
      RegionOf(g, codes, Current).None? && (RegionOf(g, codes, Older).Some? <==> AdminKey(g) in codes)
  {
  }

  // ------------------------------------------------------------------ the two rows of a geoname

  /** The JSON encoder, for the two values the migration marshals; marshalling them cannot fail. */
  datatype Encoders = Encoders(
    names: map<string, string> -> string,
    alternates: seq<GeoAlternateName> -> string)

  /** The row as the migration reads it: prepared by the current command, as scanned by the older one. */
  function Migrated(g: GeoName, snapshot: Snapshot): GeoName
  {
    if snapshot.Current? then g.Prepared() else g
  }

  /** The language-to-name map written into gn_object.names. */
  function NamesOf(g: GeoName, snapshot: Snapshot): map<string, string>
  {
    LocalizationNames(Migrated(g, snapshot).alternativeNames)
  }

  function ObjectOf(g: GeoName, codes: AdminCodes, snapshot: Snapshot, enc: Encoders): (o: GNObject)
    ensures o.id == g.GetId() && o.iso == g.country && o.names == enc.names(NamesOf(g, snapshot))
    ensures o.regionId == RegionOf(g, codes, snapshot)
  {
    GNObject(g.GetId(), enc.names(NamesOf(g, snapshot)), g.latitude, g.longitude, g.population, g.country,
             g.timezone, RegionOf(g, codes, snapshot))
  }

  function AlternatesOf(g: GeoName, snapshot: Snapshot, enc: Encoders): (a: GNObjectAlternateNames)
    ensures a.id == g.GetId()
  {
    GNObjectAlternateNames(g.GetId(), enc.alternates(Migrated(g, snapshot).alternativeNames))
  }

  /**
   * The current command always writes the geoname's own name as its English name, whatever the
   * alternate names say: Prepare appends it last and the last entry of a language wins.
   */
  lemma CurrentNamesHaveEnglish(g: GeoName)
    ensures "en" in NamesOf(g, Current) && NamesOf(g, Current)["en"] == g.name
  {
    LocalizationAfterPrepare(g.alternativeNamesAsString, g.name);
  }

  /** The body of the row loop: prepare, marshal the names, look up the region, send both rows. */
  method MigrateRow(g: GeoName, codes: AdminCodes, snapshot: Snapshot, enc: Encoders)
    returns (obj: GNObject, alt: GNObjectAlternateNames)
    ensures obj == ObjectOf(g, codes, snapshot, enc) && alt == AlternatesOf(g, snapshot, enc)
  {
    var row := g;
    if snapshot.Current? {
      row := g.Prepare();
    }
    var localized := row.GetLocalizationNames();
    var names := enc.names(localized);
    var regionId: Option<nat> := None;
    if snapshot.Older? || row.fclass != "A" {
      var key := row.country + "." + row.admin1;
      if key in codes {
        regionId := Some(codes[key].geonameid);
      }
    }
    obj := GNObject(row.GetId(), names, row.latitude, row.longitude, row.population, row.country, row.timezone, regionId);
    alt := GNObjectAlternateNames(row.GetId(), enc.alternates(row.alternativeNames));
  }

  // ------------------------------------------------------------------ the fetch loop

  function GeoNameKey(g: GeoName): nat
  {
    g.geonameid
  }

  /** Each row of a sequence, converted by f, in order. */
  function MapRows<U>(rows: seq<GeoName>, f: GeoName -> U): (r: seq<U>)
    ensures |r| == |rows|
  {
    if rows == [] then [] else [f(rows[0])] + MapRows(rows[1..], f)
  }

  lemma {:induction false} MapRowsAppend<U>(a: seq<GeoName>, b: seq<GeoName>, f: GeoName -> U)
    ensures MapRows(a + b, f) == MapRows(a, f) + MapRows(b, f)
  {
    if a == [] {
      assert a + b == b;
    } else {
      assert (a + b)[1..] == a[1..] + b;
      MapRowsAppend(a[1..], b, f);
    }
  }

  lemma MapRowsSnoc<U>(rows: seq<GeoName>, x: GeoName, f: GeoName -> U)
    ensures MapRows(rows + [x], f) == MapRows(rows, f) + [f(x)]
  {
    MapRowsAppend(rows, [x], f);
  }

  /** Reading one more row of a page maps one more row. */
  lemma MapRowsNext<U>(page: seq<GeoName>, count: nat, f: GeoName -> U)
    requires count < |page|
    ensures MapRows(page[..count + 1], f) == MapRows(page[..count], f) + [f(page[count])]
  {
    assert page[..count + 1] == page[..count] + [page[count]];
    MapRowsSnoc(page[..count], page[count], f);
  }

  lemma {:induction false} MapRowsAt<U>(rows: seq<GeoName>, f: GeoName -> U, i: nat)
    requires i < |rows|
    ensures MapRows(rows, f)[i] == f(rows[i])
  {
    if i > 0 {
      MapRowsAt(rows[1..], f, i - 1);
    }
  }

  /** The gn_object row of each geoname, as sent on its channel. */
  function ObjectRow(codes: AdminCodes, snapshot: Snapshot, enc: Encoders): GeoName -> SqlRecord
  {
    g => ObjectRecord(ObjectOf(g, codes, snapshot, enc))
  }

  /** The gn_object_alternatenames row of each geoname, as sent on its channel. */
  function AlternatesRow(snapshot: Snapshot, enc: Encoders): GeoName -> SqlRecord
  {
    g => AlternatesRecord(AlternatesOf(g, snapshot, enc))
  }

  /** One gn_object row and one gn_object_alternatenames row per geoname, both under its id. */
  lemma RowsPerGeoName(rows: seq<GeoName>, codes: AdminCodes, snapshot: Snapshot, enc: Encoders)
    ensures |MapRows(rows, ObjectRow(codes, snapshot, enc))| == |rows| == |MapRows(rows, AlternatesRow(snapshot, enc))|
    ensures forall i :: 0 <= i < |rows| ==>
      MapRows(rows, ObjectRow(codes, snapshot, enc))[i] == ObjectRecord(ObjectOf(rows[i], codes, snapshot, enc))
      && MapRows(rows, AlternatesRow(snapshot, enc))[i] == AlternatesRecord(AlternatesOf(rows[i], snapshot, enc))
  {
    forall i | 0 <= i < |rows|
      ensures MapRows(rows, ObjectRow(codes, snapshot, enc))[i] == ObjectRecord(ObjectOf(rows[i], codes, snapshot, enc))
      ensures MapRows(rows, AlternatesRow(snapshot, enc))[i] == AlternatesRecord(AlternatesOf(rows[i], snapshot, enc))
    {
      MapRowsAt(rows, ObjectRow(codes, snapshot, enc), i);
      MapRowsAt(rows, AlternatesRow(snapshot, enc), i);
    }
  }

  /** The inner `for rows.Next()` loop over one page. */
  method ReadGeoNamesPage(page: seq<GeoName>, lastId0: nat, codes: AdminCodes, snapshot: Snapshot, enc: Encoders)
    returns (objs: seq<SqlRecord>, alts: seq<SqlRecord>, lastId: nat, count: nat)
    ensures objs == MapRows(page, ObjectRow(codes, snapshot, enc))
    ensures alts == MapRows(page, AlternatesRow(snapshot, enc))
    ensures count == |page|
    ensures lastId == if page == [] then lastId0 else Last(page).geonameid
  {
    var toObject, toAlternates := ObjectRow(codes, snapshot, enc), AlternatesRow(snapshot, enc);
    objs, alts := [], [];
    lastId, count := lastId0, 0;
    while count < |page|
      invariant count <= |page|
      invariant objs == MapRows(page[..count], toObject)
      invariant alts == MapRows(page[..count], toAlternates)
      invariant lastId == if count == 0 then lastId0 else page[count - 1].geonameid
    {
      var obj, alt := MigrateRow(page[count], codes, snapshot, enc);
      MapRowsNext(page, count, toObject);
      MapRowsNext(page, count, toAlternates);
      objs := objs + [ObjectRecord(obj)];
      alts := alts + [AlternatesRecord(alt)];
      lastId := page[count].GetId();
      count := count + 1;
    }
    assert page[..count] == page;
  }

  /** One page of the cursor loop: the page's rows join those already read, and the cursor moves on. */
  lemma FetchStep(table: seq<GeoName>, n: nat, shard: nat, limit: nat, lastId: nat, done: seq<GeoName>,
                  page: seq<GeoName>, next: nat)
    requires done + Visited(table, GeoNameKey, lastId, n, shard, limit) == Visited(table, GeoNameKey, 0, n, shard, limit)
    requires page == Page(table, GeoNameKey, lastId, n, shard, limit) && page != [] && next == Last(page).geonameid
    ensures done + page + Visited(table, GeoNameKey, next, n, shard, limit) == Visited(table, GeoNameKey, 0, n, shard, limit)
    ensures |RowsAfter(table, GeoNameKey, next, n, shard)| < |RowsAfter(table, GeoNameKey, lastId, n, shard)|
  {
    var tail := Visited(table, GeoNameKey, next, n, shard, limit);
    assert Visited(table, GeoNameKey, lastId, n, shard, limit) == page + tail;
    RowsAfterShrinks(table, GeoNameKey, lastId, next, n, shard, Last(page));
    assert done + page + tail == done + (page + tail);
  }

  /**
   * migrateGeoNames: pages of `geonameid > lastId AND geonameid % n = shard ORDER BY geonameid
   * LIMIT limit` until a page is empty. It sends one gn_object and one gn_object_alternatenames
   * row for every geoname the cursor visits, in order, and counts the rows it read.
   */
  method MigrateGeoNames(table: seq<GeoName>, n: nat, shard: nat, limit: nat, codes: AdminCodes,
                         snapshot: Snapshot, enc: Encoders)
    returns (objs: seq<SqlRecord>, alts: seq<SqlRecord>, fetched: nat)
    ensures objs == MapRows(Visited(table, GeoNameKey, 0, n, shard, limit), ObjectRow(codes, snapshot, enc))
    ensures alts == MapRows(Visited(table, GeoNameKey, 0, n, shard, limit), AlternatesRow(snapshot, enc))
    ensures fetched == |Visited(table, GeoNameKey, 0, n, shard, limit)|
  {
    var toObject, toAlternates := ObjectRow(codes, snapshot, enc), AlternatesRow(snapshot, enc);
    objs, alts, fetched := [], [], 0;
    var lastId: nat := 0;
    ghost var done: seq<GeoName> := [];
    while true
      invariant done + Visited(table, GeoNameKey, lastId, n, shard, limit) == Visited(table, GeoNameKey, 0, n, shard, limit)
      invariant objs == MapRows(done, toObject) && alts == MapRows(done, toAlternates)
      invariant fetched == |done|
      decreases |RowsAfter(table, GeoNameKey, lastId, n, shard)|
    {
      var page := Page(table, GeoNameKey, lastId, n, shard, limit);
      var pageObjs, pageAlts, next, lastCount := ReadGeoNamesPage(page, lastId, codes, snapshot, enc);
      if lastCount == 0 {
        assert done == Visited(table, GeoNameKey, 0, n, shard, limit);
        return;
      }
      FetchStep(table, n, shard, limit, lastId, done, page, next);
      MapRowsAppend(done, page, toObject);
      MapRowsAppend(done, page, toAlternates);
      done := done + page;
      objs := objs + pageObjs;
      alts := alts + pageAlts;
      fetched := fetched + lastCount;
      lastId := next;
    }
  }

  /**
   * With unique ids in ascending order, a positive LIMIT and n threads, every geoname with a
   * positive id is migrated by exactly one thread, the one numbered id % n.
   */
  lemma EachGeoNameOnce(table: seq<GeoName>, n: nat, limit: nat, g: GeoName, shard: nat)
    requires StrictlySortedBy(table, GeoNameKey) && limit > 0 && n > 0
    requires g in table && g.geonameid > 0
    ensures g in Visited(table, GeoNameKey, 0, n, shard, limit) <==> shard == g.geonameid % n
  {
    VisitedIsShard(table, GeoNameKey, 0, n, shard, limit);
    RowsAfterMembers(table, GeoNameKey, 0, n, shard);
  }

  /** Threads 0 to t - 1's geonames, thread after thread. */
  function AllVisited(table: seq<GeoName>, threads: nat, t: nat, limit: nat): seq<GeoName>
  {
    if t == 0 then [] else AllVisited(table, threads, t - 1, limit) + Visited(table, GeoNameKey, 0, threads, t - 1, limit)
  }

  /**
   * With unique ids in ascending order, a positive LIMIT and n > 0 threads, the threads together
   * migrate exactly the geonames with a positive id.
   */
  lemma {:induction false} AllVisitedCoversTable(table: seq<GeoName>, threads: nat, t: nat, limit: nat, g: GeoName)
    requires StrictlySortedBy(table, GeoNameKey) && limit > 0 && 0 < t <= threads
    requires g in table
    ensures g in AllVisited(table, threads, t, limit) <==> g.geonameid > 0 && g.geonameid % threads < t
  {
    if g.geonameid > 0 {
      EachGeoNameOnce(table, threads, limit, g, t - 1);
    } else {
      VisitedIsShard(table, GeoNameKey, 0, threads, t - 1, limit);
      RowsAfterMembers(table, GeoNameKey, 0, threads, t - 1);
    }
    if t > 1 {
      AllVisitedCoversTable(table, threads, t - 1, limit, g);
    }
  }

  /** A row of the table is migrated by one thread at most: the threads' shards are disjoint. */
  lemma ThreadsDisjoint(table: seq<GeoName>, threads: nat, limit: nat, g: GeoName, a: nat, b: nat)
    requires StrictlySortedBy(table, GeoNameKey) && limit > 0 && threads > 0
    requires g in Visited(table, GeoNameKey, 0, threads, a, limit) && g in Visited(table, GeoNameKey, 0, threads, b, limit)
    ensures a == b
  {
    VisitedIsShard(table, GeoNameKey, 0, threads, a, limit);
    VisitedIsShard(table, GeoNameKey, 0, threads, b, limit);
    RowsAfterMembers(table, GeoNameKey, 0, threads, a);
    RowsAfterMembers(table, GeoNameKey, 0, threads, b);
  }

  lemma MapRowsExtend<U>(sent: seq<U>, done: seq<GeoName>, rows: seq<GeoName>, f: GeoName -> U)
    ensures sent + MapRows(done, f) + MapRows(rows, f) == sent + MapRows(done + rows, f)
  {
    MapRowsAppend(done, rows, f);
  }

  /**
   * startProcessingMigration: one migrateGeoNames per thread, then both channels are closed.
   * The threads' sends interleave in any order in Go; here thread i sends after thread i - 1.
   */
  method StartProcessingMigration(table: seq<GeoName>, threads: nat, limit: nat, codes: AdminCodes,
                                  snapshot: Snapshot, enc: Encoders, objects: Channel<SqlRecord>,
                                  alternates: Channel<SqlRecord>)
    returns (fetched: nat)
    requires objects != alternates && !objects.closed && !alternates.closed
    modifies objects, alternates
    ensures objects.closed && alternates.closed
    ensures objects.items == old(objects.items) + MapRows(AllVisited(table, threads, threads, limit), ObjectRow(codes, snapshot, enc))
    ensures alternates.items == old(alternates.items) + MapRows(AllVisited(table, threads, threads, limit), AlternatesRow(snapshot, enc))
    ensures fetched == |AllVisited(table, threads, threads, limit)|
  {
    var toObject, toAlternates := ObjectRow(codes, snapshot, enc), AlternatesRow(snapshot, enc);
    ghost var sentObjects, sentAlternates := objects.items, alternates.items;
    fetched := 0;
    for i := 0 to threads
      invariant !objects.closed && !alternates.closed
      invariant objects.items == sentObjects + MapRows(AllVisited(table, threads, i, limit), toObject)
      invariant alternates.items == sentAlternates + MapRows(AllVisited(table, threads, i, limit), toAlternates)
      invariant fetched == |AllVisited(table, threads, i, limit)|
    {
      var objs, alts, count := MigrateGeoNames(table, threads, i, limit, codes, snapshot, enc);
      ghost var done, shard := AllVisited(table, threads, i, limit), Visited(table, GeoNameKey, 0, threads, i, limit);
      assert AllVisited(table, threads, i + 1, limit) == done + shard;
      MapRowsExtend(sentObjects, done, shard, toObject);
      MapRowsExtend(sentAlternates, done, shard, toAlternates);
      objects.SendAll(objs);
      alternates.SendAll(alts);
      fetched := fetched + count;
    }
    objects.Close();
    alternates.Close();
  }

  // ------------------------------------------------------------------ admin-1 codes

  /** fetchAdmin1Codes reads admin1CodesAscii 1000 rows at a time. */
  const AdminPageSize: nat := 1000

  /** `ORDER BY code LIMIT 1000 OFFSET offset` over the table in code order. */
  function AdminPage(table: seq<GeoAdmin1Code>, offset: nat): (page: seq<GeoAdmin1Code>)
    requires offset <= |table|
    ensures page == [] <==> offset == |table|
  {
    if |table| - offset <= AdminPageSize then table[offset..] else table[offset..offset + AdminPageSize]
  }

  /** admin1Codes after storing the rows in order: a later row with the same code replaces an earlier one. */
  function CodesOf(rows: seq<GeoAdmin1Code>): AdminCodes
  {
    if rows == [] then map[] else CodesOf(Init(rows))[Last(rows).code := Last(rows)]
  }

  /** A code is known exactly when some row has it. */
  lemma {:induction false} CodesOfKeys(rows: seq<GeoAdmin1Code>, code: string)
    ensures code in CodesOf(rows) <==> exists i :: 0 <= i < |rows| && rows[i].code == code
  {
    if rows != [] {
      CodesOfKeys(Init(rows), code);
      if code in CodesOf(Init(rows)) {
        var i :| 0 <= i < |Init(rows)| && Init(rows)[i].code == code;
        assert rows[i].code == code;
      }
      if exists i :: 0 <= i < |rows| && rows[i].code == code {
        var i :| 0 <= i < |rows| && rows[i].code == code;
        if i < |rows| - 1 {
          assert Init(rows)[i].code == code;
        }
      }
    }
  }

  /** The row stored under a code is the last row with that code. */
  lemma {:induction false} CodesOfLastWins(rows: seq<GeoAdmin1Code>, i: nat)
    requires i < |rows|
    requires forall j :: i < j < |rows| ==> rows[j].code != rows[i].code
    ensures rows[i].code in CodesOf(rows) && CodesOf(rows)[rows[i].code] == rows[i]
  {
    if i < |rows| - 1 {
      CodesOfLastWins(Init(rows), i);
    }
  }

  /** fetchAdmin1Codes: page through the table by OFFSET until a page is empty, storing each row by code. */
  method FetchAdmin1Codes(table: seq<GeoAdmin1Code>) returns (codes: AdminCodes, offset: nat)
    ensures codes == CodesOf(table) && offset == |table|
  {
    codes, offset := map[], 0;
    while true
      invariant offset <= |table| && codes == CodesOf(table[..offset])
      decreases |table| - offset
    {
      var page := AdminPage(table, offset);
      var lastCount: nat := 0;
      while lastCount < |page|
        invariant lastCount <= |page| && offset + lastCount <= |table|
        invariant codes == CodesOf(table[..offset + lastCount])
      {
        var row := page[lastCount];
        assert row == table[offset + lastCount];
        assert Init(table[..offset + lastCount + 1]) == table[..offset + lastCount];
        lastCount := lastCount + 1;
        codes := codes[row.code := row];
      }
      if lastCount == 0 {
        assert table[..offset] == table;
        return;
      }
      offset := offset + lastCount;
    }
  }

  // ------------------------------------------------------------------ the whole run

  /**
   * main: read the admin-1 codes, migrate the geonames on n threads into two channels, and let
   * one batcher per channel write its table in statements of at most 100 rows.
   */
  method RunMigration(adminTable: seq<GeoAdmin1Code>, table: seq<GeoName>, threads: nat, limit: nat,
                      snapshot: Snapshot, enc: Encoders)
    returns (objectStatements: seq<Statement>, alternateStatements: seq<Statement>)
    ensures objectStatements == BatchStatements(Chunks(
      MapRows(AllVisited(table, threads, threads, limit), ObjectRow(CodesOf(adminTable), snapshot, enc)), BatchLimit))
    ensures alternateStatements == BatchStatements(Chunks(
      MapRows(AllVisited(table, threads, threads, limit), AlternatesRow(snapshot, enc)), BatchLimit))
  {
    var codes, _ := FetchAdmin1Codes(adminTable);
    var objects := new Channel<SqlRecord>();
    var alternates := new Channel<SqlRecord>();
    var _ := StartProcessingMigration(table, threads, limit, codes, snapshot, enc, objects, alternates);
    ghost var migrated := AllVisited(table, threads, threads, limit);
    ghost var objectRows, alternateRows := MapRows(migrated, ObjectRow(codes, snapshot, enc)), MapRows(migrated, AlternatesRow(snapshot, enc));
    assert objects.items == objectRows by {
      assert [] + objectRows == objectRows;
    }
    assert alternates.items == alternateRows by {
      assert [] + alternateRows == alternateRows;
    }
    objectStatements := ProcessChannelBuffer(objects.items);
    alternateStatements := ProcessChannelBuffer(alternates.items);
  }
}
