# es-reindexer in Dafny

This project models the core of es-reindexer. The reindexer reads users and geographic names
(countries, admin-1 regions and populated places) from MySQL and bulk-indexes them into
Elasticsearch. Its `geo-db-migration` companion copies the geonames dump into the
`gn_object` and `gn_object_alternatenames` tables. The model covers each of these:

- **Geonames fetcher** (`GeoFold`, `GeoFetch`). Joined rows are sorted by `geonameid` and
  paged by a shard cursor (`key > lastId AND key % threads = thread`, `LIMIT` on keys).
  Consecutive rows of one geoname fold into one `GNItem` document, with per-language name
  maps and a suggestion set. A country name cache is filled first-write-wins.
- **Record parsers** (`GeoNames`, `Users`). `GeoName.Prepare` parses
  `name,lang,pref|...` into the alternate-name list. `User.Prepare` parses `lang|level,...`
  into the known and learnt languages.
- **Wire conversion** (`Records`). Every record kind becomes a bulk index request: index,
  type, decimal id, optional parent and document.
- **Batching loaders** (`Loader`, `SqlBatch`, `Batches`).
  - The Elasticsearch loader flushes a bulk each time `Limit` actions are pending, then sends
    the short rest.
  - The SQL batcher flushes every 100 rows.
  - `processBulkInsert` builds the `INSERT ... VALUES (?,?),(?,...)` statement.
- **Drivers** (`Drivers`, `Migration`, `Counters`, `Channels`).
  - Command selection, the delta flag checks and the delta loop.
  - Fetch goroutines joined before the channel closes.
  - `fetchAdmin1Codes`'s OFFSET pagination and the migration cursor.
  - The wrapping `uint64` progress counter.
- **Older root programs** (`Legacy`, and `Migration` with `Snapshot.Older`). These are the
  root `main.go`, `migration.go` and `model.go`.

The model replaces the database with sorted sequences of rows. Each query is a function over
them (`Cursor.Page`, `Cursor.GroupPage`, `Migration.AdminPage`). A Go channel is a
`Channels.Channel` whose items only grow. The goroutines run one after another.

## Model

| member | source | states |
|---|---|---|
| Strings.JoinSplit | geoname.go:124-126 | Joining the pieces of `strings.Split` restores the text. |
| Strings.SplitJoin | user.go:105-106 | Splitting a join of separator-free pieces gives the pieces back. |
| Strings.DecimalRoundTrip | cmd/es-reindexer/main.go:122-128 | The decimal text of an id is all digits and reads back to the id. |
| Strings.DecimalInjective | cmd/es-reindexer/main.go:122-124 | Distinct ids print differently. |
| Strings.ParseUint8OfDecimal | user.go:107-112 | `strconv.ParseUint(s, 10, 8)` accepts a printed level exactly when it is below 256, and returns it. |
| Cursor.RowsAfterMembers | cmd/es-reindexer/fetch_users.go:95-96 | The cursor keeps a row exactly when its key is after `lastId` and in the shard. |
| Cursor.RowsAfterMonotone | cmd/es-reindexer/fetch_users.go:112 | Moving the cursor forward never admits more rows. |
| Cursor.RowsAfterShrinks | cmd/es-reindexer/fetch_users.go:112 | Moving the cursor past a row of the shard shrinks what is left, so the loop ends. |
| Cursor.Page | cmd/es-reindexer/fetch_users.go:95-96 | A page is at most `limit` rows of the shard after the cursor, in key order, and is their prefix. |
| Cursor.VisitedIsShard | cmd/es-reindexer/fetch_users.go:118-123 | With unique ascending keys and a positive LIMIT, the cursor loop visits exactly the shard after the start. |
| Cursor.RowsAfterPage | cmd/es-reindexer/fetch_users.go:112 | After a non-empty page, the cursor at its last key leaves exactly the rest of the shard. |
| Cursor.VisitedLimitZero | cmd/es-reindexer/fetch_users.go:118-120 | With LIMIT 0 the first page is empty and nothing is read. |
| Cursor.SelectedKeysWindow | cmd/es-reindexer/fetch_geo.go:165-174 | The key sub-query selects exactly the shard's keys in (lastId, m], where m is its last key. |
| Cursor.GroupPageWindow | cmd/es-reindexer/fetch_geo.go:165-174 | A page of joined rows is every row whose key lies in that window: a key group is never split between pages. |
| Cursor.GroupPagesAreShard | cmd/es-reindexer/fetch_geo.go:243-262 | The non-empty pages concatenate to the shard's rows after the cursor. |
| Cursor.GroupPagesAfter | cmd/es-reindexer/fetch_geo.go:166-173 | Each page starts strictly after the previous page's last key. |
| Cursor.RunsFlatten | cmd/es-reindexer/fetch_geo.go:85-103 | The key groups concatenate back to the rows. |
| Cursor.RunsUniform | cmd/es-reindexer/fetch_geo.go:85-103 | Every row of a group carries the group's key, and neighbouring groups differ in key. |
| Cursor.RunsHaveGroupKeys | cmd/es-reindexer/fetch_geo.go:193-211 | Each group is headed by its key, and the last group has the last row's key. |
| Cursor.RunsAppend | cmd/es-reindexer/fetch_geo.go:243-262 | Two stretches whose meeting rows differ in key are grouped independently. |
| Cursor.GroupKeysIncrease | cmd/es-reindexer/fetch_geo.go:343-363 | Over sorted rows the group keys strictly increase. |
| Cursor.GroupKeysCover | cmd/es-reindexer/fetch_geo.go:343-363 | The group keys are exactly the rows' keys. |
| GeoFold.CacheHolds | cmd/es-reindexer/fetch_geo.go:108-115 | The country cache has a (country, language) pair exactly when some row has it. |
| GeoFold.CacheFirstWins | cmd/es-reindexer/fetch_geo.go:108-115 | The cache holds the name of the first row with the pair. |
| GeoFold.FoldStep | cmd/es-reindexer/fetch_geo.go:85-103 | A row with the previous row's key is added to the open document; otherwise that document is finished and the row opens a new one. |
| GeoFold.PagesEnd | cmd/es-reindexer/fetch_geo.go:246-249 | An empty page ends the loop: nothing more is sent or counted. |
| GeoFold.PagesStep | cmd/es-reindexer/fetch_geo.go:243-262 | A non-empty page sends its documents and adds its group count, then the cursor moves past its last key. |
| GeoFold.PagesReadStep | cmd/es-reindexer/fetch_geo.go:251-260 | Closing a page's last document and moving the cursor keeps the loop's account of what was sent and counted. |
| GeoFold.PagesReadEnd | cmd/es-reindexer/fetch_geo.go:246-249 | At the empty page, everything the pages give has been sent and counted. |
| GeoFold.PageDocsFold | cmd/es-reindexer/fetch_geo.go:251-256 | Where the closing pass adds nothing, a page's documents are its groups folded. |
| GeoFold.PagesDocsAreRuns | cmd/es-reindexer/fetch_geo.go:166-173 | The paged loop sends one folded document per key group of the shard after the cursor, and counts groups rather than rows. |
| GeoFold.PageThenRest | cmd/es-reindexer/fetch_geo.go:243-262 | A page's documents followed by those of the larger keys are the documents of both together. |
| GeoFold.FoldHeader | cmd/es-reindexer/fetch_geo.go:349-361 | A document's header (id, region id, population, coordinates) comes from its group's first row. |
| GeoFold.FoldSuggestions | cmd/es-reindexer/fetch_geo.go:236-240 | A document's suggestions are the opening ones plus those of every row. |
| GeoFold.FirstWinsHolds | cmd/es-reindexer/fetch_geo.go:228-234 | A language has a name exactly when it is seeded or some row's entry has it; the seeded "en" is never replaced. |
| GeoFold.FirstWinsFirst | cmd/es-reindexer/fetch_geo.go:228-234 | An unseeded language holds the first qualifying alternate name. |
| GeoFold.FoldSlot | cmd/es-reindexer/fetch_geo.go:388-399 | A name slot of a folded document is the first-wins map of its rows. |
| GeoFold.CountryFold | cmd/es-reindexer/fetch_geo.go:105-106 | A country document's names are last-wins per language, and every row's name is a suggestion. |
| GeoFold.LastWinsHolds | cmd/es-reindexer/fetch_geo.go:105 | A country name for a language is that of the group's last row in it. |
| GeoFold.RegionFold | cmd/es-reindexer/fetch_geo.go:213-240 | A region has "en" = its base name and other names first-wins; its suggestions are the opening ones plus "alt country" per row. |
| GeoFold.CityFold | cmd/es-reindexer/fetch_geo.go:343-413 | A city's header, including its region id, comes from the first row; its suggestions are the opening ones plus each row's. |
| GeoFold.CityNamesFold | cmd/es-reindexer/fetch_geo.go:388-393 | City names are first-wins with "en" seeded from the city name. |
| GeoFold.CityRegionNamesFold | cmd/es-reindexer/fetch_geo.go:394-399 | The city's region names are first-wins with "en" seeded from the region name. |
| GeoFold.CountrySuggestionsCovered | cmd/es-reindexer/fetch_geo.go:217-222 | Skipping languages already named only removes country suggestions. |
| GeoFold.RegionCloseKeeps | cmd/es-reindexer/fetch_geo.go:251-256 | Closing a region adds nothing that opening it had not already added. |
| GeoFold.CityCloseKeeps | cmd/es-reindexer/fetch_geo.go:424-429 | Closing a city adds nothing that opening it had not already added. |
| GeoFold.FoldAllIds | cmd/es-reindexer/fetch_geo.go:193-211 | The documents carry the group keys as ids, in order. |
| GeoFold.EachGeonameOnce | cmd/es-reindexer/fetch_geo.go:193-211 | Over sorted rows, document ids strictly increase and are exactly the rows' keys: one document per geoname. |
| GeoFold.RegionPages | cmd/es-reindexer/fetch_geo.go:128-263 | fetchRegions emits each region of the shard after the cursor once, in id order, and counts it once. |
| GeoFold.CitiesStopEarly | cmd/es-reindexer/fetch_geo.go:312-322 | As written, a page of keys with no populated place reads no row and ends the loop while a town is left unread. |
| GeoFold.PopulatedKeys | cmd/es-reindexer/fetch_geo.go:318-322 | The corrected key sub-query holds exactly the ids of populated places. |
| GeoFold.PopulatedKeysSorted | cmd/es-reindexer/fetch_geo.go:323-329 | The corrected keys come out in id order. |
| GeoFold.CityPages | cmd/es-reindexer/fetch_geo.go:265-436 | With the corrected keys, fetchCities emits each city of the shard after the cursor once, in id order, and counts it once. |
| GeoFetch.AddCountrySuggestions | cmd/es-reindexer/fetch_geo.go:217-222 | The loop over the cache entry, in any map order, adds "base name" for each language the document lacks. |
| GeoFetch.FetchCountries | cmd/es-reindexer/fetch_geo.go:41-126 | Every thread builds the first-wins cache; only the importing thread sends and counts one document per country. A zero first id panics on the nil map. |
| GeoFetch.OpenRegionItem | cmd/es-reindexer/fetch_geo.go:193-225 | Opening a region builds the documented region document. |
| GeoFetch.RegionRowRead | cmd/es-reindexer/fetch_geo.go:186-244 | One row of the region loop keeps the fold's account. |
| GeoFetch.ReadRegionPage | cmd/es-reindexer/fetch_geo.go:186-244 | A page sends all its groups but the last, keeps the last open and counts its groups. |
| GeoFetch.FetchRegions | cmd/es-reindexer/fetch_geo.go:128-263 | fetchRegions sends and counts exactly what the grouped pages give. |
| GeoFetch.OpenCityItem | cmd/es-reindexer/fetch_geo.go:343-385 | Opening a city builds the documented city document. |
| GeoFetch.CityRowRead | cmd/es-reindexer/fetch_geo.go:336-417 | One row of the city loop keeps the fold's account. |
| GeoFetch.ReadCityPage | cmd/es-reindexer/fetch_geo.go:336-417 | A city page sends all its groups but the last, keeps the last open and counts its groups. |
| GeoFetch.FetchCities | cmd/es-reindexer/fetch_geo.go:265-436 | fetchCities over the key sub-query's keys sends and counts exactly the documents and groups of the grouped pages; the program passes every geoname id (the sub-query as written), and CityPages says what the populated-place keys give. |
| GeoFetch.FetchGeoNames | cmd/es-reindexer/fetch_geo.go:11-38 | A thread panics exactly when the first country has id 0; otherwise it sends countries (thread 0 only), then its regions, then its cities paged over every geoname id as the sub-query is written; all threads share one cache. |
| GeoNames.ParsePiece | geoname.go:126-143 | A parsed piece's name and language hold no comma. |
| GeoNames.AlternativeNamesOf | geoname.go:120-152 | An empty string gives one entry; otherwise there is one entry per "\|"-piece, and the English entry is last. |
| GeoNames.ParsePieceFields | geoname.go:126-143 | The name is field 0; the language is field 1 or ""; preferred holds iff there are exactly 3 fields and field 2 is "1". |
| GeoNames.ParsePieceRender | geoname.go:126-143 | A parsed GROUP_CONCAT rendering gives back the alternate name. |
| GeoNames.AlternativeNamesRoundTrip | geoname.go:120-152 | Prepare restores a rendered list entry by entry, then adds the English entry. |
| GeoNames.LocalizationNamesLastWins | geoname.go:154-166 | The map has exactly the non-empty languages; each holds the last entry's name. |
| GeoNames.LocalizationAfterPrepare | geoname.go:147-166 | After Prepare, "en" maps to the base name. |
| GeoNames.GeoName.Prepared | geoname.go:120-152 | Only the alternate-name list changes, and it is rebuilt from the string. |
| GeoNames.GeoName.Prepare | geoname.go:120-152 | The loop builds the prepared record. |
| GeoNames.GeoName.GetLocalizationNames | geoname.go:154-166 | The loop builds the last-wins localization map. |
| GeoNames.PrepareIdempotent | geoname.go:120-152 | Preparing twice equals preparing once. |
| GeoNames.GNObject.GetValues | geoname.go:194-205 | Eight values follow the column order: id, names, latitude, longitude, population, iso, timezone, region id. |
| GeoNames.GNObjectAlternateNames.GetValues | geoname.go:207-219 | The values follow the gorm columns in order: `id`, then `alternatenames` (the Names field's column name). |
| GeoNames.GNObjectAggregate.GetType | geoname.go:256-262 | The type is "city" iff there is a region id, else "region". |
| GeoNames.GNObjectAggregate.GetParent | geoname.go:268-270 | There is a parent exactly for cities. |
| GeoNames.GNObjectAggregate.GetSearchData | geoname.go:274-303 | The body has exactly its seven keys; region_id is the parent or null; location is a lat/lon object. |
| GeoNames.GNItem.GetSearchData | geoname.go:321-352 | The body is the documented one; "suggest" lists each suggestion exactly once. |
| GeoNames.AddPrefixed | geoname.go:331-341 | Each name-map loop adds exactly the prefixed entries. |
| GeoNames.PrefixedHit | geoname.go:331-341 | Each language's name sits under prefix+language. |
| GeoNames.PrefixedDomain | geoname.go:331-341 | Every added key is a prefix followed by a language of the map. |
| GeoNames.SearchDataCityNames | geoname.go:331-333 | "city_"+lang holds each city name. |
| GeoNames.SearchDataRegionNames | geoname.go:335-337 | "region_"+lang holds each region name. |
| GeoNames.SearchDataCountryNames | geoname.go:339-341 | "country_"+lang holds each country name. |
| GeoNames.SearchDataSuggest | geoname.go:343-345 | "suggest" is the suggestion list. |
| GeoNames.SearchDataRegionId | geoname.go:347-349 | "regionid" is present iff the type is "city", and then holds the region id. |
| GeoNames.SearchDataPopulation | geoname.go:322-329 | The population is its decimal text. |
| GeoNames.SearchDataIso2 | geoname.go:322-341 | "country_iso2" is the ISO code unless a country name in language "iso2" overwrites it. |
| GeoNames.SearchDataKeys | geoname.go:321-352 | The body holds nothing but the fixed fields, "regionid" and prefixed names. |
| Users.ParseAllSpec | user.go:104-130 | The pieces parse iff each does; entry i is piece i. |
| Users.ParseLangLevelSpec | user.go:105-112 | A piece without "\|" fails; otherwise it fails iff its level is not a uint8. |
| Users.RenderLangParses | user.go:105-112 | A rendered `lang\|level` parses back. |
| Users.LangsRoundTrip | user.go:101-131 | Prepare parses the query's GROUP_CONCAT rendering of a list back into the same list. |
| Users.User.Prepare | user.go:101-131 | The loops build the prepared user, or fail on a bad piece. |
| Users.AppendLangs | user.go:104-116 | One info block appends the parsed entries to the list, or fails. |
| Users.PreparedSex | user.go:102 | sex_bool is true iff sex is "female"; the id is unchanged. |
| Users.PreparedEmpty | user.go:104-118 | An empty info string leaves its list unchanged. |
| Users.PreparedPieces | user.go:104-130 | Prepare fails iff some piece has no "\|" or a bad level; otherwise it gives one entry per piece, in order. |
| Users.PrepareTwice | user.go:114-128 | Prepare appends, so a second call duplicates the entries. |
| Users.UserBody | user.go:30-99 | The document omits the "-"-tagged fields and carries sex_bool, known, learn and the profile columns. |
| Users.QueryConditionPlace | cmd/es-reindexer/fetch_users.go:68-70 | The condition sits right after "WHERE " and right before the activity filter. |
| Users.QueryOrderAndLimit | cmd/es-reindexer/fetch_users.go:71-72 | The query ends with ORDER BY order, then LIMIT limit. |
| Users.PreparedAllIds | cmd/es-reindexer/fetch_users.go:113-115 | Each user is prepared before it is sent, and Prepare keeps the id. |
| Users.ReadUsersPage | cmd/es-reindexer/fetch_users.go:102-116 | A page's users are prepared and sent in order, `lastId` becomes the last id and the rows are counted. |
| Users.FetchUsers | cmd/es-reindexer/fetch_users.go:75-130 | The sent users are the visited users, prepared, in order; totalFetch grows by the rows read. |
| Users.FetchUsersCoversShard | cmd/es-reindexer/fetch_users.go:75-130 | With unique ascending ids, fetchUsers visits exactly its shard's users with a positive id. |
| Records.Trip.GetSearchData | trip.go:32-53 | There is no "open" key; "created" holds created_at; "location" is a lat/lon object. |
| Records.Trip.GetValues | trip.go:55-73 | Fifteen values follow the column order, Open included. |
| Records.TripDocumentMatchesRow | trip.go:32-53 | Every copied column has the row's value. |
| Records.TripDocumentKeys | trip.go:32-53 | The document holds only the copied columns, "created" and "location". |
| Records.Prompt.Prepare | prompt.go:20-21 | Prepare changes nothing. |
| Records.Prompt.GetSearchData | prompt.go:27-37 | The body has exactly id, uid, language, data and created; the language is under "language". |
| Records.GeoNameBody | geoname.go:80-114 | A raw geoname's document keeps its id and alternate names under the Go field names and leaves out the `json:"-"` columns (the ten columns not in the model are listed under Left out). |
| Records.OpHeader | cmd/es-reindexer/main.go:119-129 | Index and type come from the record (or from run-wide metadata); the id is the decimal of GetId; the parent is set only when there is one. |
| Records.Convert | cmd/es-reindexer/main.go:119-131 | A request carries the header and the record's own document. |
| Records.OpIdsDistinct | cmd/es-reindexer/main.go:122-124 | Request ids are equal iff the record ids are. |
| Records.AggregateParentIsCity | geoname.go:252-270 | An aggregate request has a parent iff its type is city; its index is "geonames". |
| Loader.BatchSize | cmd/es-reindexer/main.go:133-152 | The flush size is Limit, or 1 when Limit is 0. |
| Loader.OpsAt | cmd/es-reindexer/main.go:119-131 | The i-th request is made of the i-th record. |
| Loader.Push | cmd/es-reindexer/main.go:131-152 | Adding an action flushes and counts the bulk when it reaches the batch size. |
| Loader.ProcessFetchedRecords | cmd/es-reindexer/main.go:110-168 | The bulks are the requests cut into full batches plus the non-empty rest; totalSend grows by the full batches only. |
| Loader.LoadAll | cmd/es-reindexer/main.go:131-166 | The loop's bulks and counted actions match that cut. |
| Loader.LoadFinished | cmd/es-reindexer/main.go:157-165 | At the end the rest is flushed only if non-empty, and is not counted. |
| Loader.StartProcessing | cmd/es-reindexer/main.go:170-184 | Each loader converts and bulks exactly the records it received, and the shared totalSend ends at its old value plus every loader's full-bulk actions, modulo 2^64, whatever the order of the Adds. |
| Loader.BulksCoverRecords | cmd/es-reindexer/main.go:133-165 | No request is lost or reordered: the bulks concatenate to one request per record. |
| Batches.ChunksFlatten | cmd/es-reindexer/main.go:133-165 | The flushed batches concatenate back to the stream. |
| Batches.ChunksShape | cmd/es-reindexer/main.go:133-165 | Every batch has size k except a shorter, non-empty last one. |
| Batches.ChunksSizes | cmd/es-reindexer/main.go:133-165 | n records give n / k full batches, plus one of n % k when that is non-zero. |
| Batches.FullBatchesFloor | cmd/es-reindexer/main.go:134-165 | The counted actions are n less n % k. |
| Batches.FlushStep | cmd/geo-db-migration/migration.go:180-186 | Filling the buffer flushes one more batch and empties the buffer. |
| Batches.KeepStep | cmd/geo-db-migration/migration.go:176-179 | A buffer short of the size keeps filling. |
| Batches.LastFlush | cmd/geo-db-migration/migration.go:188-192 | At the end, a non-empty rest is the last batch. |
| Counters.Counter.Add | model.go:18-21 | Add increases the value by x modulo 2^64. |
| Counters.WrapIsMod | model.go:18-21 | Repeated wrap-around equals the remainder mod 2^64. |
| Counters.AfterAddsIsSum | model.go:14-25 | From 0, the value after several Adds is their sum modulo 2^64. |
| Channels.Channel.SendAll | cmd/es-reindexer/fetch_users.go:113-115 | Sending appends the items in order. |
| Channels.Channel.Close | cmd/es-reindexer/main.go:40-47 | Closing keeps the items. |
| SqlBatch.SqlRecord.GetValues | geoname.go:194-223 | A row has eight values for gn_object, two for the alternate names. |
| SqlBatch.RepeatIsMarks | cmd/geo-db-migration/migration.go:146-147 | "?," repeated n times, less its last character, is n comma-separated marks. |
| SqlBatch.GroupsAreJoined | cmd/geo-db-migration/migration.go:145-153 | The loop's groups are the comma-join of one "(?,...)" per row. |
| SqlBatch.InsertStatementErr | cmd/geo-db-migration/migration.go:141-166 | A row with no values panics; otherwise the arguments are all values, in order. |
| SqlBatch.InsertStatementJoined | cmd/geo-db-migration/migration.go:141-153 | The SQL is `INSERT INTO t VALUES ` followed by the groups joined by commas. |
| SqlBatch.EmptyBufferStatement | cmd/geo-db-migration/migration.go:141-153 | With no rows, the trailing space is dropped and there are no arguments. |
| SqlBatch.CountGroups | cmd/geo-db-migration/migration.go:145-151 | The groups hold one "?" per value. |
| SqlBatch.PlaceholdersMatchArgs | cmd/geo-db-migration/migration.go:141-153 | The placeholder count equals the argument count. |
| SqlBatch.BulkStep | cmd/geo-db-migration/migration.go:145-151 | One row appends its group and its values. |
| SqlBatch.ProcessBulkInsert | cmd/geo-db-migration/migration.go:141-166 | The loop builds exactly the insert statement, or the panic. |
| SqlBatch.FlushBatch | cmd/geo-db-migration/migration.go:180-186 | A flush inserts the buffered values into the last row's table. |
| SqlBatch.ProcessChannelBuffer | cmd/geo-db-migration/migration.go:168-195 | One statement per 100-row batch, plus one for the non-empty rest, each into its last row's table. |
| SqlBatch.BufferRow | cmd/geo-db-migration/migration.go:176-186 | One row keeps the buffer, its count and the statements in step with the batches. |
| Migration.RegionOf | cmd/geo-db-migration/migration.go:92-100 | A region is set iff the admin code is known and the fclass is not "A" (the older copy skips the fclass test); it is that code's geonameid. |
| Migration.RegionSnapshotsDiffer | migration.go:86-91 | The two copies differ only on feature class A. |
| Migration.ObjectOf | cmd/geo-db-migration/migration.go:84-122 | The gn_object row has the geoname's id, country and region. |
| Migration.CurrentNamesHaveEnglish | cmd/geo-db-migration/migration.go:84-90 | Prepare runs first, so the names include "en" = the base name. |
| Migration.MigrateRow | cmd/geo-db-migration/migration.go:84-122 | The row loop's body builds both rows. |
| Migration.RowsPerGeoName | cmd/geo-db-migration/migration.go:84-122 | Each geoname gives one gn_object and one alternate-names row with the same id. |
| Migration.ReadGeoNamesPage | cmd/geo-db-migration/migration.go:74-125 | A page's rows are converted in order, the cursor moves to the last id and rows are counted. |
| Migration.FetchStep | cmd/geo-db-migration/migration.go:124-130 | A non-empty page extends what was read, and the cursor moves forward. |
| Migration.MigrateGeoNames | cmd/geo-db-migration/migration.go:18-139 | The thread sends both rows for every geoname the cursor visits, in order, and counts them. |
| Migration.EachGeoNameOnce | cmd/geo-db-migration/migration.go:65-68 | A geoname with a positive id is migrated by thread id % n and no other. |
| Migration.AllVisitedCoversTable | cmd/geo-db-migration/migration.go:197-214 | All threads together migrate exactly the geonames with a positive id. |
| Migration.ThreadsDisjoint | cmd/geo-db-migration/migration.go:65-68 | No geoname is migrated by two threads. |
| Migration.StartProcessingMigration | cmd/geo-db-migration/migration.go:197-214 | All threads run, then both channels are closed, holding every thread's rows. |
| Migration.AdminPage | cmd/geo-db-migration/migration.go:222-229 | A page is empty exactly at the end of the table. |
| Migration.CodesOfKeys | cmd/geo-db-migration/migration.go:235-246 | A code is known iff some row has it. |
| Migration.CodesOfLastWins | cmd/geo-db-migration/migration.go:235-246 | The stored row is the last row with the code. |
| Migration.FetchAdmin1Codes | cmd/geo-db-migration/migration.go:216-257 | Offset pagination reads the whole table, and the offset ends at its size. |
| Migration.RunMigration | cmd/geo-db-migration/migration.go:269-310 | The statements are the batches of every thread's rows, for both tables. |
| Drivers.SelectCommandSpec | cmd/es-reindexer/main.go:219-234 | Only users, geo and users-delta are accepted; users-delta falls through to users; anything else exits with 1. |
| Drivers.DeltaFlagsAccepted | cmd/es-reindexer/main.go:254-262 | A delta run needs a field in {signup, last_login, modified} and a total in [100, 100000]; the field is checked first. |
| Drivers.JoinedPanics | cmd/es-reindexer/main.go:24-47 | One panicking thread ends the run. |
| Drivers.JoinedAll | cmd/es-reindexer/main.go:24-47 | The run finishes iff every thread does. |
| Drivers.FetchedUnknownCommand | cmd/es-reindexer/main.go:24-36 | An unknown command panics once a thread starts. |
| Drivers.GeoFetchedPanics | cmd/es-reindexer/fetch_geo.go:85-103 | A geo run panics iff the first country row has id 0 and a thread runs. |
| Drivers.UsersThreadIsShard | cmd/es-reindexer/fetch_users.go:75-130 | A users thread sends its shard, prepared, in id order. |
| Drivers.StartFetch | cmd/es-reindexer/main.go:20-48 | All fetchers are joined before the channel is closed, which then holds every thread's records (geo cities as the as-written key sub-query pages them); an unknown command panics. |
| Drivers.FetchThread | cmd/es-reindexer/main.go:27-36 | A goroutine runs fetchUsers or fetchGeoNames for its thread and sends that thread's records, geo cities keyed by the as-written sub-query; any other command panics. |
| Drivers.DeltaStopsAtCap | cmd/es-reindexer/main.go:99-103 | The loop stops at the first round whose running total reaches maxTotalFetch. |
| Drivers.StartFetchDelta | cmd/es-reindexer/main.go:50-108 | As written, only model "users" runs; each round sends the same page, prepared, until the cap; then the channel is closed. |
| Drivers.DeltaRoundsOf | cmd/es-reindexer/main.go:69-104 | The as-written loop sends the page once per round. |
| Drivers.DeltaRepeatsPage | cmd/es-reindexer/main.go:69-104 | As written, a page shorter than the cap is sent at least twice. |
| Drivers.DeltaPagedCount | cmd/es-reindexer/main.go:69-104 | The corrected delta reads no more users than exist. |
| Drivers.DeltaPagedBounds | cmd/es-reindexer/main.go:99-103 | The corrected delta stops at the cap or at the end, at most one page past the cap. |
| Drivers.StartFetchDeltaPaged | cmd/es-reindexer/main.go:50-108 | The corrected delta sends the first ranked users, prepared, in order, once each. |
| Drivers.DeltaPagesOf | cmd/es-reindexer/main.go:69-104 | The corrected loop reads pages from an advancing offset. |
| Drivers.DeltaPagedOnce | cmd/es-reindexer/main.go:69-104 | With distinct ids, the corrected delta sends no user twice. |
| Drivers.RunReindexer | cmd/es-reindexer/main.go:191-280 | An unknown command exits with 1; a delta run with bad flags panics; a valid delta run is the as-written startFetchDelta, sending the first page, prepared, once per round until the cap; `users` and `geo` send every thread's records (cities as the sub-query is written) and close the channel. |
| Legacy.ReadGeoNamePage | main.go:171-195 | A page's geonames are prepared and sent in order; the cursor moves to the last id. |
| Legacy.FetchGeoNames | main.go:134-202 | The root fetcher sends every visited geoname, prepared, and counts them. |
| Legacy.GeoNamesNeverPanic | main.go:204-221 | A root geonames run cannot panic. |
| Legacy.StartFetch | main.go:115-132 | All fetchers are joined, then the channel is closed. |
| Legacy.FetchThread | main.go:115-132 | A root goroutine runs fetchUsers or fetchGeoNames. |
| Legacy.UsersIndexedAsGeoNames | main.go:322-338 | As written, users are indexed into "geonames". |
| Legacy.MetaAsWritten | main.go:322-338 | The root switch as written: only users and geonames are accepted, anything else exits with 1, and both get the geonames metadata. |
| Legacy.MetaFor | main.go:322-338 | The switch as intended (the Findings row's corrected half): the same accepted commands and exit status, with `users` given the users metadata. |
| Legacy.MetaForMatchesRecords | model.go:78-100 | The intended metadata indexes users where the current command does. |
| Legacy.RunRoot | main.go:293-340 | An unknown command exits with 1 and sends nothing; otherwise the metadata is the switch as written (the geonames metadata for both commands), and a finished run has sent every thread's records, thread after thread, and closed the channel. |

## Left out

- Concurrency: goroutines, `sync.WaitGroup`, channel blocking and `runtime.Gosched`.
  - Fetch threads run one after another, thread i after thread i - 1.
  - The loaders get their share of the records as a parameter.
  - Go's interleavings are not modelled.
- Counters.Counter.Add: atomicity (`atomic.AddUint64`) is not modelled; the counter is used sequentially.
- SQL execution, row scanning and gorm. Queries are functions over sorted row sequences, and ORDER BY is a precondition on row order. Database errors and the panics on them are not modelled.
- The Elasticsearch client and `bulkRequest.Do`. A flush records the bulk, and its errors are not modelled.
- Floating point. Latitudes and longitudes are kept as opaque 64-bit patterns; `strconv.FormatFloat` is not modelled.
- JSON marshal and unmarshal.
  - Migration.ObjectOf: the encoder is an `Encoders` parameter.
  - GNObjectAggregate.GetSearchData: its two JSON columns are decoded by an opaque function, so the swallowed decode errors are not modelled.
  - Users.UserBody: the user document is described field by field, not as the encoder's output.
- Configuration loading, flag parsing, logging, memstats and the `time.Sleep` before processing.
- Root migration.go:105 calls `GetAlternativeNames`, which is not part of this model. The older alternate-names payload is an opaque encoder value.
- The root migration main's `os.Exit` race with the batchers.
- The root fetchGeoNames query selects a region sub-query column; the model carries the geoname row only.
- Trip is never fetched or sent by any command; only its document and values are modelled.
- Drivers.PrepareMessage and Drivers.NilMapMessage stand in for Go runtime error texts; their wording is not modelled.
- cmd/es-reindexer/main.go calls `fetchGeo`, which is not defined in the files of this model; it is taken to be `fetchGeoNames` of fetch_geo.go.
- What a thread sent before it panicked is not described; a panic ends the run.
- Query whitespace: the users query template is kept character for character, but the geo queries are functions, not text.
- Go map iteration order is left open. `GNItem.GetSearchData` returns the suggestion order alongside the body.
- Records.GeoNameBody: the GeoName datatype has no fcode, cc2, admin2, admin3, admin4, elevation, gtopo30, moddate, region or location fields, so the document leaves out those ten keys that the encoder writes for a geoname.
- The corrected halves of the Findings (GeoFold.CityPages, Legacy.MetaFor, Drivers.StartFetchDeltaPaged) are not used by the program paths. Drivers.RunReindexer, Drivers.StartFetch, GeoFetch.FetchGeoNames and Legacy.RunRoot follow the code as written.
- Differences from the written description, where the code is followed instead:
  - The delta total bounds are inclusive (100 and 100000 are accepted), although the panic message says "100 < x < 100k".
  - `users-delta` falls through to the users database and model.

## Findings

| source | as written | input that shows it | evidently intended | confidence | as-written member | corrected member |
|---|---|---|---|---|---|---|
| cmd/es-reindexer/fetch_geo.go:312-322 | The key sub-query takes `LIMIT` keys over all geonames; the outer query then keeps only `fclass = 'P'` rows. A page of keys with no populated place returns no rows and ends the loop. | Geonames 1 (fclass A) and 2 (fclass P), one thread, LIMIT 1: the first page reads no row, so town 2 is never indexed. | The sub-query filters on `fclass = 'P'` too, so every populated place of the shard is indexed once. | not executed | GeoFold.CitiesStopEarly | GeoFold.CityPages |
| main.go:326-329 | The root command switch gives `users` the geonames metadata. | Any user in a root `users` run is indexed into index "geonames" with type "geonames". | `users` uses `MetaDataESUsers`. | not executed | Legacy.UsersIndexedAsGeoNames | Legacy.MetaForMatchesRecords |
| cmd/es-reindexer/main.go:69-104 | The delta query has no cursor and no OFFSET, so every round re-reads the same first `limit` users until the running total reaches the cap. | 10 ranked users, LIMIT 5, total 100: the same 5 users are sent 20 times. | Each round reads the next page, so each user is sent once. | not executed | Drivers.DeltaRepeatsPage | Drivers.StartFetchDeltaPaged |
