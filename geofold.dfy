/**
 * The geographic fold of fetch_geo.go, as specification functions.
 *
 * Each fetcher reads rows in key order and folds every run of rows sharing a geoname id into
 * one GNItem: the first row of a run opens the document, every row (the first included) then
 * adds its alternate name and suggestions, and the last document of a page gets a closing
 * pass. The three fetchers differ only in these three steps, which a Recipe bundles; the
 * imperative fetchers in GeoFetch are proved to produce exactly the documents defined here.
 */
module GeoFold {
  import opened Base
  import opened Strings
  import opened Cursor
  import opened GeoNames

  // ------------------------------------------------------------------ rows

  /** A row of the country query: one alternate name of a country. */
  datatype CountryRow = CountryRow(
    geonameid: nat, country: string, name: string, lang: string, timezone: string,
    latitude: Float, longitude: Float, population: Int32)

  /** A row of the region query: an admin1 region joined with one of its alternate names. */
  datatype RegionRow = RegionRow(
    geonameid: nat, name: string, asciiname: string, altname: string, lang: string,
    timezone: string, latitude: Float, longitude: Float, population: Int32, country: string)

  /** A row of the city query: a populated place, one alternate name, its region and the region's name in that language. */
  datatype CityRow = CityRow(
    geonameid: nat, cityname: string, cityasciiname: string, cityalt: string, lang: string,
    regname: string, regasciiname: string, regalt: string, regid: string, timezone: string,
    latitude: Float, longitude: Float, population: Int32, country: string)

  function CountryKey(r: CountryRow): nat { r.geonameid }
  function RegionKey(r: RegionRow): nat { r.geonameid }
  function CityKey(r: CityRow): nat { r.geonameid }

  // ------------------------------------------------------------------ the country cache

  /** country code -> language -> country name. */
  type CountryCache = map<string, map<string, string>>

  /** `countries[c]` as Go reads it: a missing country reads as an empty map. */
  function CountryLangs(cache: CountryCache, c: string): map<string, string>
  {
    if c in cache then cache[c] else map[]
  }

  /** `countries[c][lang]` as Go reads it: anything missing reads as "". */
  function Localized(cache: CountryCache, c: string, lang: string): string
  {
    var langs := CountryLangs(cache, c);
    if lang in langs then langs[lang] else ""
  }

  /** Two words joined by one space. */
  function Space(a: string, b: string): string
  {
    a + " " + b
  }

  /**
   * `base + " " + name` for every language of the country's cache entry that `names` does
   * not cover yet.
   */
  function CountrySuggestions(base: string, langs: map<string, string>, names: map<string, string>): set<string>
  {
    set lang | lang in langs && lang !in names :: Space(base, langs[lang])
  }

  /** The cache after some rows: a (country, language) pair keeps the first name seen. */
  function CacheOf(rows: seq<CountryRow>): CountryCache
  {
    if rows == [] then map[]
    else
      var cache := CacheOf(Init(rows));
      var r := Last(rows);
      var langs := CountryLangs(cache, r.country);
      if r.lang in langs then cache else cache[r.country := langs[r.lang := r.name]]
  }

  /** The first row with the given country and language. */
  predicate FirstWith(rows: seq<CountryRow>, i: nat, c: string, lang: string)
  {
    i < |rows| && rows[i].country == c && rows[i].lang == lang
    && forall j :: 0 <= j < i ==> !(rows[j].country == c && rows[j].lang == lang)
  }

  /** The cache holds a (country, language) pair exactly when some row has it. */
  lemma {:induction false} CacheHolds(rows: seq<CountryRow>, c: string, lang: string)
    ensures lang in CountryLangs(CacheOf(rows), c) <==>
              exists i :: 0 <= i < |rows| && rows[i].country == c && rows[i].lang == lang
    decreases |rows|
  {
    if rows != [] {
      var p := Init(rows);
      CacheHolds(p, c, lang);
      if lang in CountryLangs(CacheOf(p), c) {
        var i :| 0 <= i < |p| && p[i].country == c && p[i].lang == lang;
        assert rows[i] == p[i];
      }
      if exists i :: 0 <= i < |rows| && rows[i].country == c && rows[i].lang == lang {
        var i :| 0 <= i < |rows| && rows[i].country == c && rows[i].lang == lang;
        if i < |p| {
          assert p[i] == rows[i];
        }
      }
    }
  }

  /** First write wins: the cache holds the name of the first row with the pair. */
  lemma {:induction false} CacheFirstWins(rows: seq<CountryRow>, i: nat, c: string, lang: string)
    requires FirstWith(rows, i, c, lang)
    ensures Localized(CacheOf(rows), c, lang) == rows[i].name
    decreases |rows|
  {
    var p := Init(rows);
    if i < |p| {
      assert FirstWith(p, i, c, lang) by {
        forall j | 0 <= j < i ensures !(p[j].country == c && p[j].lang == lang) {
          assert p[j] == rows[j];
        }
      }
      CacheFirstWins(p, i, c, lang);
      CacheHolds(p, c, lang);
    } else {
      CacheHolds(p, c, lang);
      assert forall j :: 0 <= j < |p| ==> p[j] == rows[j];
    }
  }

  // ------------------------------------------------------------------ folding runs

  /** How one fetcher builds documents: open on a run's first row, add each row, close a page's last document. */
  datatype Recipe<!T, !C> = Recipe(
    open: (T, C) -> GNItem,
    add: (GNItem, T, C) -> GNItem,
    close: (GNItem, T, C) -> GNItem)

  /** The document a run folds into. */
  function Fold<T, C>(run: seq<T>, ctx: C, r: Recipe<T, C>): GNItem
    requires run != []
    decreases |run|
  {
    if |run| == 1 then r.add(r.open(run[0], ctx), run[0], ctx)
    else r.add(Fold(Init(run), ctx, r), Last(run), ctx)
  }

  /** One document per run, in order. */
  function FoldAll<T, C>(runs: seq<seq<T>>, ctx: C, r: Recipe<T, C>): (docs: seq<GNItem>)
    requires forall i :: 0 <= i < |runs| ==> runs[i] != []
    ensures |docs| == |runs|
  {
    if runs == [] then [] else FoldAll(Init(runs), ctx, r) + [Fold(Last(runs), ctx, r)]
  }

  lemma {:induction false} FoldAllAppend<T, C>(a: seq<seq<T>>, b: seq<seq<T>>, ctx: C, r: Recipe<T, C>)
    requires forall i :: 0 <= i < |a| ==> a[i] != []
    requires forall i :: 0 <= i < |b| ==> b[i] != []
    ensures FoldAll(a + b, ctx, r) == FoldAll(a, ctx, r) + FoldAll(b, ctx, r)
    decreases |b|
  {
    if b == [] {
      assert a + b == a;
    } else {
      assert Init(a + b) == a + Init(b);
      assert Last(a + b) == Last(b);
      FoldAllAppend(a, Init(b), ctx, r);
    }
  }

  lemma FoldAllIndex<T, C>(runs: seq<seq<T>>, ctx: C, r: Recipe<T, C>, i: nat)
    requires forall k :: 0 <= k < |runs| ==> runs[k] != []
    requires i < |runs|
    ensures FoldAll(runs, ctx, r)[i] == Fold(runs[i], ctx, r)
    decreases |runs|
  {
    if i < |runs| - 1 {
      FoldAllIndex(Init(runs), ctx, r, i);
    }
  }

  /** A run's first row opens a document and adds itself to it. */
  lemma FoldFirst<T(!new), C>(x: T, key: T -> nat, ctx: C, r: Recipe<T, C>)
    ensures Runs([x], key) == [[x]]
    ensures FoldAll(Init(Runs([x], key)), ctx, r) == []
    ensures Fold(Last(Runs([x], key)), ctx, r) == r.add(r.open(x, ctx), x, ctx)
  {
  }

  /**
   * One more row: with the key of the row before, it is added to the current document;
   * otherwise the current document is finished and the row opens the next one.
   */
  lemma FoldStep<T(!new), C>(p: seq<T>, x: T, key: T -> nat, ctx: C, r: Recipe<T, C>)
    requires p != []
    ensures key(Last(p)) == key(x) ==>
              FoldAll(Init(Runs(p + [x], key)), ctx, r) == FoldAll(Init(Runs(p, key)), ctx, r)
              && Fold(Last(Runs(p + [x], key)), ctx, r) == r.add(Fold(Last(Runs(p, key)), ctx, r), x, ctx)
              && |Runs(p + [x], key)| == |Runs(p, key)|
    ensures key(Last(p)) != key(x) ==>
              FoldAll(Init(Runs(p + [x], key)), ctx, r) == FoldAll(Init(Runs(p, key)), ctx, r) + [Fold(Last(Runs(p, key)), ctx, r)]
              && Fold(Last(Runs(p + [x], key)), ctx, r) == r.add(r.open(x, ctx), x, ctx)
              && |Runs(p + [x], key)| == |Runs(p, key)| + 1
  {
    RunsSnoc(p, x, key);
    var rs := Runs(p, key);
    if key(Last(p)) == key(x) {
      assert Init(Init(rs) + [Last(rs) + [x]]) == Init(rs);
      assert Init(Last(rs) + [x]) == Last(rs);
    } else {
      assert Init(rs + [[x]]) == rs;
    }
  }

  /** The documents of one page: every run folded, the last one closed. */
  function PageDocs<T(!new), C>(page: seq<T>, key: T -> nat, ctx: C, r: Recipe<T, C>): (docs: seq<GNItem>)
    requires page != []
    ensures |docs| == |Runs(page, key)|
  {
    var runs := Runs(page, key);
    FoldAll(Init(runs), ctx, r) + [r.close(Fold(Last(runs), ctx, r), Last(page), ctx)]
  }

  /** The documents of several pages, page after page. */
  function PagesDocs<T(!new), C>(pages: seq<seq<T>>, key: T -> nat, ctx: C, r: Recipe<T, C>): seq<GNItem>
    requires forall i :: 0 <= i < |pages| ==> pages[i] != []
  {
    if pages == [] then [] else PageDocs(pages[0], key, ctx, r) + PagesDocs(pages[1..], key, ctx, r)
  }

  /** What the fetcher adds to totalFetch: the number of key groups of each page. */
  function PagesCount<T(!new)>(pages: seq<seq<T>>, key: T -> nat): nat
  {
    if pages == [] then 0 else |Runs(pages[0], key)| + PagesCount(pages[1..], key)
  }

  /** A cursor loop that reads an empty page stops: nothing more is sent or counted. */
  lemma PagesEnd<T(!new), C>(keys: seq<nat>, rows: seq<T>, key: T -> nat, lastId: nat, n: nat, shard: nat, limit: nat, ctx: C, r: Recipe<T, C>)
    requires GroupPage(keys, rows, key, lastId, n, shard, limit) == []
    ensures PagesDocs(GroupPages(keys, rows, key, lastId, n, shard, limit), key, ctx, r) == []
    ensures PagesCount(GroupPages(keys, rows, key, lastId, n, shard, limit), key) == 0
  {
  }

  /**
   * A non-empty page: its documents come first, then those of the pages after its last key,
   * which leaves fewer rows to read.
   */
  lemma PagesStep<T(!new), C>(keys: seq<nat>, rows: seq<T>, key: T -> nat, lastId: nat, n: nat, shard: nat, limit: nat, ctx: C, r: Recipe<T, C>)
    requires GroupPage(keys, rows, key, lastId, n, shard, limit) != []
    ensures var page := GroupPage(keys, rows, key, lastId, n, shard, limit);
            var next := key(Last(page));
            lastId < next
            && |RowsAfter(rows, key, next, n, shard)| < |RowsAfter(rows, key, lastId, n, shard)|
            && PagesDocs(GroupPages(keys, rows, key, lastId, n, shard, limit), key, ctx, r)
               == PageDocs(page, key, ctx, r) + PagesDocs(GroupPages(keys, rows, key, next, n, shard, limit), key, ctx, r)
            && PagesCount(GroupPages(keys, rows, key, lastId, n, shard, limit), key)
               == |Runs(page, key)| + PagesCount(GroupPages(keys, rows, key, next, n, shard, limit), key)
  {
    var page := GroupPage(keys, rows, key, lastId, n, shard, limit);
    var next := key(Last(page));
    assert Last(page) in page;
    RowsAfterShrinks(rows, key, lastId, next, n, shard, Last(page));
    var pages := GroupPages(keys, rows, key, lastId, n, shard, limit);
    assert pages == [page] + GroupPages(keys, rows, key, next, n, shard, limit);
    assert pages[1..] == GroupPages(keys, rows, key, next, n, shard, limit);
  }

  /** What a paged fetcher has sent and counted when its cursor stands at `lastId`. */
  ghost predicate PagesRead<T(!new), C>(keys: seq<nat>, rows: seq<T>, key: T -> nat, lastId: nat, n: nat, shard: nat, limit: nat,
                                       ctx: C, r: Recipe<T, C>, docs: seq<GNItem>, fetched: nat)
  {
    docs + PagesDocs(GroupPages(keys, rows, key, lastId, n, shard, limit), key, ctx, r)
      == PagesDocs(GroupPages(keys, rows, key, 0, n, shard, limit), key, ctx, r)
    && fetched + PagesCount(GroupPages(keys, rows, key, lastId, n, shard, limit), key)
      == PagesCount(GroupPages(keys, rows, key, 0, n, shard, limit), key)
  }

  /** Reading a non-empty page, closing its last document and moving the cursor to its last key. */
  lemma PagesReadStep<T(!new), C>(keys: seq<nat>, rows: seq<T>, key: T -> nat, lastId: nat, n: nat, shard: nat, limit: nat,
                                 ctx: C, r: Recipe<T, C>, docs: seq<GNItem>, fetched: nat)
    requires PagesRead(keys, rows, key, lastId, n, shard, limit, ctx, r, docs, fetched)
    requires GroupPage(keys, rows, key, lastId, n, shard, limit) != []
    ensures var page := GroupPage(keys, rows, key, lastId, n, shard, limit);
            var next := key(Last(page));
            lastId < next
            && |RowsAfter(rows, key, next, n, shard)| < |RowsAfter(rows, key, lastId, n, shard)|
            && PagesRead(keys, rows, key, next, n, shard, limit, ctx, r, docs + PageDocs(page, key, ctx, r),
                 fetched + |Runs(page, key)|)
  {
    PagesStep(keys, rows, key, lastId, n, shard, limit, ctx, r);
    var page := GroupPage(keys, rows, key, lastId, n, shard, limit);
    var next := key(Last(page));
    AppendAssoc(docs, PageDocs(page, key, ctx, r), PagesDocs(GroupPages(keys, rows, key, next, n, shard, limit), key, ctx, r));
  }

  /** An empty page ends the loop with everything sent and counted. */
  lemma PagesReadEnd<T(!new), C>(keys: seq<nat>, rows: seq<T>, key: T -> nat, lastId: nat, n: nat, shard: nat, limit: nat,
                                ctx: C, r: Recipe<T, C>, docs: seq<GNItem>, fetched: nat)
    requires PagesRead(keys, rows, key, lastId, n, shard, limit, ctx, r, docs, fetched)
    requires GroupPage(keys, rows, key, lastId, n, shard, limit) == []
    ensures docs == PagesDocs(GroupPages(keys, rows, key, 0, n, shard, limit), key, ctx, r)
    ensures fetched == PagesCount(GroupPages(keys, rows, key, 0, n, shard, limit), key)
  {
    PagesEnd(keys, rows, key, lastId, n, shard, limit, ctx, r);
  }

  /** The closing pass changes nothing on every run of rows drawn from `rows` that share a key. */
  ghost predicate CloseKeeps<T(!new), C>(rows: seq<T>, key: T -> nat, ctx: C, r: Recipe<T, C>)
  {
    forall run: seq<T> ::
      run != [] && (forall x :: x in run ==> x in rows && key(x) == key(run[0]))
      ==> r.close(Fold(run, ctx, r), Last(run), ctx) == Fold(run, ctx, r)
  }

  /** Where the closing pass changes nothing, a page's documents are its runs folded. */
  lemma PageDocsFold<T(!new), C>(page: seq<T>, rows: seq<T>, key: T -> nat, ctx: C, r: Recipe<T, C>)
    requires page != [] && forall x :: x in page ==> x in rows
    requires CloseKeeps(rows, key, ctx, r)
    ensures PageDocs(page, key, ctx, r) == FoldAll(Runs(page, key), ctx, r)
  {
    var runs := Runs(page, key);
    var run := Last(runs);
    RunsUniform(page, key);
    RunsFlatten(page, key);
    assert runs == Init(runs) + [run];
    FlattenSnoc(Init(runs), run);
    assert forall x :: x in run ==> x in page;
    assert run[|run| - 1] == run[|run| - 1];
    forall x | x in run ensures key(x) == key(run[0]) {
      var j :| 0 <= j < |run| && run[j] == x;
      assert key(runs[|runs| - 1][j]) == key(runs[|runs| - 1][0]);
    }
  }

  /**
   * The documents of the paged loop are those of folding every run of the shard after the
   * cursor: pages cut between keys, so no run is split and none is read twice.
   */
  lemma {:induction false} PagesDocsAreRuns<T(!new), C>(
    keys: seq<nat>, rows: seq<T>, key: T -> nat, lastId: nat, n: nat, shard: nat, limit: nat,
    ctx: C, r: Recipe<T, C>)
    requires SortedBy(keys, Id) && SortedBy(rows, key)
    requires KeysOf(rows, key) == set k | k in keys
    requires limit > 0
    requires CloseKeeps(rows, key, ctx, r)
    ensures PagesDocs(GroupPages(keys, rows, key, lastId, n, shard, limit), key, ctx, r)
            == FoldAll(Runs(RowsAfter(rows, key, lastId, n, shard), key), ctx, r)
    ensures PagesCount(GroupPages(keys, rows, key, lastId, n, shard, limit), key)
            == |Runs(RowsAfter(rows, key, lastId, n, shard), key)|
    decreases |RowsAfter(rows, key, lastId, n, shard)|
  {
    if RowsAfter(keys, Id, lastId, n, shard) == [] {
      NoKeysNoRows(keys, rows, key, lastId, n, shard);
      assert SelectedKeys(keys, lastId, n, shard, limit) == [];
      RowsWithNoKeys(rows, key);
    } else {
      GroupPageWindow(keys, rows, key, lastId, n, shard, limit);
      var page := GroupPage(keys, rows, key, lastId, n, shard, limit);
      var m := key(Last(page));
      RowsBetweenMembers(rows, key, lastId, m, n, shard);
      assert Last(page) in page;
      RowsAfterShrinks(rows, key, lastId, m, n, shard, Last(page));
      PagesDocsAreRuns(keys, rows, key, m, n, shard, limit, ctx, r);
      var pages := GroupPages(keys, rows, key, lastId, n, shard, limit);
      assert pages == [page] + GroupPages(keys, rows, key, m, n, shard, limit);
      assert pages[1..] == GroupPages(keys, rows, key, m, n, shard, limit);
      RowsAfterSplit(rows, key, lastId, m, n, shard);
      RowsAfterMembers(rows, key, m, n, shard);
      PageThenRest(page, RowsAfter(rows, key, m, n, shard), rows, key, ctx, r);
    }
  }

  /**
   * A page followed by rows of larger keys: the page's own documents, then the folded runs of
   * the rest, are the folded runs of both together, and their run counts add up.
   */
  lemma PageThenRest<T(!new), C>(page: seq<T>, after: seq<T>, rows: seq<T>, key: T -> nat, ctx: C, r: Recipe<T, C>)
    requires page != [] && forall x :: x in page ==> x in rows
    requires forall x :: x in after ==> key(x) > key(Last(page))
    requires CloseKeeps(rows, key, ctx, r)
    ensures PageDocs(page, key, ctx, r) + FoldAll(Runs(after, key), ctx, r) == FoldAll(Runs(page + after, key), ctx, r)
    ensures |Runs(page, key)| + |Runs(after, key)| == |Runs(page + after, key)|
  {
    PageDocsFold(page, rows, key, ctx, r);
    if after == [] {
      assert page + after == page;
    } else {
      assert after[0] in after;
      RunsAppend(page, after, key);
      FoldAllAppend(Runs(page, key), Runs(after, key), ctx, r);
    }
  }

  /** Two documents that agree on everything but their name maps and suggestions. */
  predicate SameHeader(a: GNItem, b: GNItem)
  {
    a.itemType == b.itemType && a.geonameid == b.geonameid && a.country == b.country
    && a.regionid == b.regionid && a.population == b.population && a.timezone == b.timezone
    && a.latitude == b.latitude && a.longitude == b.longitude
  }

  /** When adding a row keeps the header, a run's document has the header its first row opened. */
  lemma {:induction false} FoldHeader<T, C>(run: seq<T>, ctx: C, r: Recipe<T, C>)
    requires run != []
    requires forall item: GNItem, row: T :: SameHeader(r.add(item, row, ctx), item)
    ensures SameHeader(Fold(run, ctx, r), r.open(run[0], ctx))
    decreases |run|
  {
    if |run| > 1 {
      FoldHeader(Init(run), ctx, r);
    }
  }

  /** The union of what `f` gives for each row. */
  function Gather<T, C>(rows: seq<T>, ctx: C, f: (T, C) -> set<string>): set<string>
  {
    if rows == [] then {} else Gather(Init(rows), ctx, f) + f(Last(rows), ctx)
  }

  lemma {:induction false} GatherMembers<T, C>(rows: seq<T>, ctx: C, f: (T, C) -> set<string>, s: string)
    ensures s in Gather(rows, ctx, f) <==> exists i :: 0 <= i < |rows| && s in f(rows[i], ctx)
    decreases |rows|
  {
    if rows != [] {
      var p := Init(rows);
      GatherMembers(p, ctx, f, s);
      if s in Gather(p, ctx, f) {
        var i :| 0 <= i < |p| && s in f(p[i], ctx);
        assert rows[i] == p[i];
      }
      if exists i :: 0 <= i < |rows| && s in f(rows[i], ctx) {
        var i :| 0 <= i < |rows| && s in f(rows[i], ctx);
        if i < |p| {
          assert rows[i] == p[i];
        }
      }
    }
  }

  /** When adding a row adds `f` of it to the suggestions, a run's suggestions are the opening ones and all of those. */
  lemma {:induction false} FoldSuggestions<T, C>(run: seq<T>, ctx: C, r: Recipe<T, C>, f: (T, C) -> set<string>)
    requires run != []
    requires forall item: GNItem, row: T :: r.add(item, row, ctx).suggestions == item.suggestions + f(row, ctx)
    ensures Fold(run, ctx, r).suggestions == r.open(run[0], ctx).suggestions + Gather(run, ctx, f)
    decreases |run|
  {
    if |run| == 1 {
      assert Gather(run, ctx, f) == Gather([], ctx, f) + f(run[0], ctx);
    } else {
      FoldSuggestions(Init(run), ctx, r, f);
    }
  }

  // ------------------------------------------------------------------ name slots

  /** Put a (language, name) entry into a name map unless the language is already there. */
  function Put(names: map<string, string>, e: Option<(string, string)>): map<string, string>
  {
    match e
    case None => names
    case Some((lang, name)) => if lang in names then names else names[lang := name]
  }

  /** A name map filled row by row from a seed, the first entry for each language winning. */
  function FirstWins<T, C>(rows: seq<T>, ctx: C, seed: map<string, string>, entry: (T, C) -> Option<(string, string)>): map<string, string>
  {
    if rows == [] then seed else Put(FirstWins(Init(rows), ctx, seed, entry), entry(Last(rows), ctx))
  }

  /** Row `i` is the first whose entry is for `lang`. */
  predicate FirstEntry<T, C>(rows: seq<T>, ctx: C, entry: (T, C) -> Option<(string, string)>, i: nat, lang: string)
  {
    i < |rows| && entry(rows[i], ctx).Some? && entry(rows[i], ctx).value.0 == lang
    && forall j :: 0 <= j < i ==> !(entry(rows[j], ctx).Some? && entry(rows[j], ctx).value.0 == lang)
  }

  /** A language is in the map exactly when the seed or some row's entry has it; seeded languages are never replaced. */
  lemma {:induction false} FirstWinsHolds<T, C>(rows: seq<T>, ctx: C, seed: map<string, string>, entry: (T, C) -> Option<(string, string)>, lang: string)
    ensures lang in FirstWins(rows, ctx, seed, entry) <==>
              lang in seed || exists i :: 0 <= i < |rows| && entry(rows[i], ctx).Some? && entry(rows[i], ctx).value.0 == lang
    ensures lang in seed ==> FirstWins(rows, ctx, seed, entry)[lang] == seed[lang]
    decreases |rows|
  {
    if rows != [] {
      var p := Init(rows);
      FirstWinsHolds(p, ctx, seed, entry, lang);
      if exists i :: 0 <= i < |p| && entry(p[i], ctx).Some? && entry(p[i], ctx).value.0 == lang {
        var i :| 0 <= i < |p| && entry(p[i], ctx).Some? && entry(p[i], ctx).value.0 == lang;
        assert rows[i] == p[i];
      }
      if exists i :: 0 <= i < |rows| && entry(rows[i], ctx).Some? && entry(rows[i], ctx).value.0 == lang {
        var i :| 0 <= i < |rows| && entry(rows[i], ctx).Some? && entry(rows[i], ctx).value.0 == lang;
        if i < |p| {
          assert rows[i] == p[i];
        }
      }
    }
  }

  /** An unseeded language holds the name of the first row whose entry is for it. */
  lemma {:induction false} FirstWinsFirst<T, C>(rows: seq<T>, ctx: C, seed: map<string, string>, entry: (T, C) -> Option<(string, string)>, i: nat, lang: string)
    requires FirstEntry(rows, ctx, entry, i, lang) && lang !in seed
    ensures lang in FirstWins(rows, ctx, seed, entry)
    ensures FirstWins(rows, ctx, seed, entry)[lang] == entry(rows[i], ctx).value.1
    decreases |rows|
  {
    var p := Init(rows);
    FirstWinsHolds(p, ctx, seed, entry, lang);
    if i < |p| {
      assert FirstEntry(p, ctx, entry, i, lang) by {
        forall j | 0 <= j < i ensures !(entry(p[j], ctx).Some? && entry(p[j], ctx).value.0 == lang) {
          assert p[j] == rows[j];
        }
      }
      FirstWinsFirst(p, ctx, seed, entry, i, lang);
    } else {
      assert forall j :: 0 <= j < |p| ==> p[j] == rows[j];
    }
  }

  /** When adding a row puts its entry into a name slot, the slot of a run's document is the first-wins map. */
  lemma {:induction false} FoldSlot<T, C>(run: seq<T>, ctx: C, r: Recipe<T, C>, slot: GNItem -> map<string, string>, entry: (T, C) -> Option<(string, string)>)
    requires run != []
    requires forall item: GNItem, row: T :: slot(r.add(item, row, ctx)) == Put(slot(item), entry(row, ctx))
    ensures slot(Fold(run, ctx, r)) == FirstWins(run, ctx, slot(r.open(run[0], ctx)), entry)
    decreases |run|
  {
    if |run| > 1 {
      FoldSlot(Init(run), ctx, r, slot, entry);
    }
  }

  // ------------------------------------------------------------------ countries

  function OpenCountry(row: CountryRow, u: ()): GNItem
  {
    GNItem("country", row.geonameid, row.country, "", row.population, row.timezone, row.latitude, row.longitude,
      map[], map[], map[], {})
  }

  /** Every row overwrites the name for its language and adds its name as a suggestion. */
  function AddCountryRow(item: GNItem, row: CountryRow, u: ()): GNItem
  {
    item.(countryNames := item.countryNames[row.lang := row.name], suggestions := item.suggestions + {row.name})
  }

  /** Countries have no closing pass. */
  function KeepCountry(item: GNItem, row: CountryRow, u: ()): GNItem
  {
    item
  }

  const CountryRecipe: Recipe<CountryRow, ()> := Recipe(OpenCountry, AddCountryRow, KeepCountry)

  /** The country names of a run, the last row for each language winning. */
  function LastWins(rows: seq<CountryRow>): map<string, string>
  {
    if rows == [] then map[] else LastWins(Init(rows))[Last(rows).lang := Last(rows).name]
  }

  /** A country document: header from the first row, names last-wins, every row's name a suggestion. */
  lemma {:induction false} CountryFold(run: seq<CountryRow>)
    requires run != []
    ensures SameHeader(Fold(run, (), CountryRecipe), OpenCountry(run[0], ()))
    ensures Fold(run, (), CountryRecipe).geonameid == run[0].geonameid
    ensures Fold(run, (), CountryRecipe).countryNames == LastWins(run)
    ensures Fold(run, (), CountryRecipe).suggestions == set x | x in run :: x.name
    decreases |run|
  {
    if |run| == 1 {
      assert LastWins(run) == LastWins([])[run[0].lang := run[0].name];
      assert forall x :: x in run ==> x == run[0];
    } else {
      var p := Init(run);
      CountryFold(p);
      assert run == p + [Last(run)];
      assert (set x | x in run :: x.name) == (set x | x in p :: x.name) + {Last(run).name};
    }
  }

  /** The name for a language is that of the last row in the language. */
  lemma {:induction false} LastWinsHolds(rows: seq<CountryRow>, i: nat)
    requires i < |rows|
    requires forall j :: i < j < |rows| ==> rows[j].lang != rows[i].lang
    ensures rows[i].lang in LastWins(rows) && LastWins(rows)[rows[i].lang] == rows[i].name
    decreases |rows|
  {
    if i < |rows| - 1 {
      LastWinsHolds(Init(rows), i);
    }
  }

  // ------------------------------------------------------------------ regions

  /**
   * Opening a region: the English name is the base name; suggestions are the name with the
   * country's English name, and with its name in every language of the cache entry.
   */
  function OpenRegion(row: RegionRow, cache: CountryCache): GNItem
  {
    GNItem("region", row.geonameid, row.country, "", row.population, row.timezone, row.latitude, row.longitude,
      map[], map["en" := row.name], map[],
      {Space(row.name, Localized(cache, row.country, "en"))}
      + CountrySuggestions(row.name, CountryLangs(cache, row.country), map[]))
  }

  /** A non-empty alternate name that differs from the base name, for a non-empty language. */
  function RegionEntry(row: RegionRow, cache: CountryCache): Option<(string, string)>
  {
    if row.lang != "" && row.altname != "" && row.altname != row.name then Some((row.lang, row.altname)) else None
  }

  /** "alt country" in the row's language, when the cache has the country in that language. */
  function RegionRowSuggestions(row: RegionRow, cache: CountryCache): set<string>
  {
    var loc := Localized(cache, row.country, row.lang);
    if row.lang != "" && loc != "" then {Space(row.altname, loc)} else {}
  }

  function AddRegionRow(item: GNItem, row: RegionRow, cache: CountryCache): GNItem
  {
    item.(regionNames := Put(item.regionNames, RegionEntry(row, cache)),
          suggestions := item.suggestions + RegionRowSuggestions(row, cache))
  }

  /** The page's last region: "name country" for every cached language the region has no name in. */
  function CloseRegion(item: GNItem, row: RegionRow, cache: CountryCache): GNItem
  {
    item.(suggestions := item.suggestions
      + CountrySuggestions(row.name, CountryLangs(cache, item.country), item.regionNames))
  }

  const RegionRecipe: Recipe<RegionRow, CountryCache> := Recipe(OpenRegion, AddRegionRow, CloseRegion)

  /**
   * A region document: header from the first row; names first-wins with "en" seeded from the
   * base name; suggestions from the opening and from each row.
   */
  lemma RegionFold(run: seq<RegionRow>, cache: CountryCache)
    requires run != []
    ensures SameHeader(Fold(run, cache, RegionRecipe), OpenRegion(run[0], cache))
    ensures Fold(run, cache, RegionRecipe).geonameid == run[0].geonameid
    ensures Fold(run, cache, RegionRecipe).regionNames == FirstWins(run, cache, map["en" := run[0].name], RegionEntry)
    ensures Fold(run, cache, RegionRecipe).suggestions ==
              {Space(run[0].name, Localized(cache, run[0].country, "en"))}
              + CountrySuggestions(run[0].name, CountryLangs(cache, run[0].country), map[])
              + Gather(run, cache, RegionRowSuggestions)
  {
    FoldHeader(run, cache, RegionRecipe);
    FoldSlot(run, cache, RegionRecipe, RegionNamesOf, RegionEntry);
    FoldSuggestions(run, cache, RegionRecipe, RegionRowSuggestions);
  }

  // ------------------------------------------------------------------ cities

  /**
   * Opening a city: "en" is the base name for the city and the region; suggestions are
   * "city [region] country", "city country" (English country name) and "city country" in
   * every language of the cache entry.
   */
  function OpenCity(row: CityRow, cache: CountryCache): GNItem
  {
    var en := Localized(cache, row.country, "en");
    var cityRegion := if row.regname != "" then Space(row.cityname, row.regname) else row.cityname;
    GNItem("city", row.geonameid, row.country, row.regid, row.population, row.timezone, row.latitude, row.longitude,
      map["en" := row.cityname], map["en" := row.regname], map[],
      {Space(cityRegion, en), Space(row.cityname, en)}
      + CountrySuggestions(row.cityname, CountryLangs(cache, row.country), map[]))
  }

  function CityEntry(row: CityRow, cache: CountryCache): Option<(string, string)>
  {
    if row.lang != "" && row.cityalt != "" && row.cityalt != row.cityname then Some((row.lang, row.cityalt)) else None
  }

  function CityRegionEntry(row: CityRow, cache: CountryCache): Option<(string, string)>
  {
    if row.lang != "" && row.regalt != "" && row.regalt != row.regname then Some((row.lang, row.regalt)) else None
  }

  /** "cityalt regalt|regname country" and "cityname country" in the row's language, for a non-empty language. */
  function CityRowSuggestions(row: CityRow, cache: CountryCache): set<string>
  {
    var loc := Localized(cache, row.country, row.lang);
    var cityRegion :=
      if row.regalt != "" then Space(row.cityalt, row.regalt)
      else if row.regname != "" then Space(row.cityalt, row.regname)
      else row.cityalt;
    if row.lang != "" then {Space(cityRegion, loc), Space(row.cityname, loc)} else {}
  }

  function AddCityRow(item: GNItem, row: CityRow, cache: CountryCache): GNItem
  {
    item.(cityNames := Put(item.cityNames, CityEntry(row, cache)),
          regionNames := Put(item.regionNames, CityRegionEntry(row, cache)),
          suggestions := item.suggestions + CityRowSuggestions(row, cache))
  }

  function CloseCity(item: GNItem, row: CityRow, cache: CountryCache): GNItem
  {
    item.(suggestions := item.suggestions
      + CountrySuggestions(row.cityname, CountryLangs(cache, item.country), item.cityNames))
  }

  const CityRecipe: Recipe<CityRow, CountryCache> := Recipe(OpenCity, AddCityRow, CloseCity)

  /** A city document: header (region id, population, coordinates) from the first row; suggestions from the opening and from each row. */
  lemma CityFold(run: seq<CityRow>, cache: CountryCache)
    requires run != []
    ensures SameHeader(Fold(run, cache, CityRecipe), OpenCity(run[0], cache))
    ensures Fold(run, cache, CityRecipe).geonameid == run[0].geonameid
    ensures Fold(run, cache, CityRecipe).regionid == run[0].regid
    ensures Fold(run, cache, CityRecipe).suggestions ==
              OpenCity(run[0], cache).suggestions + Gather(run, cache, CityRowSuggestions)
  {
    FoldHeader(run, cache, CityRecipe);
    FoldSuggestions(run, cache, CityRecipe, CityRowSuggestions);
  }

  function CityNamesOf(item: GNItem): map<string, string> { item.cityNames }

  function RegionNamesOf(item: GNItem): map<string, string> { item.regionNames }

  /** The city names of a city document: first-wins, with "en" seeded from the first row's city name. */
  lemma CityNamesFold(run: seq<CityRow>, cache: CountryCache)
    requires run != []
    ensures Fold(run, cache, CityRecipe).cityNames == FirstWins(run, cache, map["en" := run[0].cityname], CityEntry)
  {
    assert forall item: GNItem, row: CityRow :: CityNamesOf(AddCityRow(item, row, cache)) == Put(CityNamesOf(item), CityEntry(row, cache));
    FoldSlot(run, cache, CityRecipe, CityNamesOf, CityEntry);
  }

  /** The region names of a city document: first-wins, with "en" seeded from the first row's region name. */
  lemma CityRegionNamesFold(run: seq<CityRow>, cache: CountryCache)
    requires run != []
    ensures Fold(run, cache, CityRecipe).regionNames == FirstWins(run, cache, map["en" := run[0].regname], CityRegionEntry)
  {
    assert forall item: GNItem, row: CityRow :: RegionNamesOf(AddCityRow(item, row, cache)) == Put(RegionNamesOf(item), CityRegionEntry(row, cache));
    FoldSlot(run, cache, CityRecipe, RegionNamesOf, CityRegionEntry);
  }

  // ------------------------------------------------------------------ the closing pass

  /** Rows of one geoname agree on its base name and country, as rows joined from one geoname row do. */
  ghost predicate RegionDependent(rows: seq<RegionRow>)
  {
    forall a, b :: a in rows && b in rows && a.geonameid == b.geonameid ==> a.name == b.name && a.country == b.country
  }

  ghost predicate CityDependent(rows: seq<CityRow>)
  {
    forall a, b :: a in rows && b in rows && a.geonameid == b.geonameid ==> a.cityname == b.cityname && a.country == b.country
  }

  /** Skipping covered languages only removes suggestions. */
  lemma CountrySuggestionsCovered(base: string, langs: map<string, string>, names: map<string, string>)
    ensures CountrySuggestions(base, langs, names) <= CountrySuggestions(base, langs, map[])
  {
  }

  /**
   * Closing a region adds nothing: every suggestion it could add was already made when the
   * region was opened, since a region's name and country are those of its first row.
   */
  lemma RegionCloseKeeps(rows: seq<RegionRow>, cache: CountryCache)
    requires RegionDependent(rows)
    ensures CloseKeeps(rows, RegionKey, cache, RegionRecipe)
  {
    forall run: seq<RegionRow> | run != [] && (forall x :: x in run ==> x in rows && RegionKey(x) == RegionKey(run[0]))
      ensures RegionRecipe.close(Fold(run, cache, RegionRecipe), Last(run), cache) == Fold(run, cache, RegionRecipe)
    {
      RegionFold(run, cache);
      var item := Fold(run, cache, RegionRecipe);
      assert run[0] in run && Last(run) in run;
      CountrySuggestionsCovered(Last(run).name, CountryLangs(cache, item.country), item.regionNames);
      assert CloseRegion(item, Last(run), cache).suggestions == item.suggestions;
    }
  }

  /** Closing a city adds nothing, for the same reason. */
  lemma CityCloseKeeps(rows: seq<CityRow>, cache: CountryCache)
    requires CityDependent(rows)
    ensures CloseKeeps(rows, CityKey, cache, CityRecipe)
  {
    forall run: seq<CityRow> | run != [] && (forall x :: x in run ==> x in rows && CityKey(x) == CityKey(run[0]))
      ensures CityRecipe.close(Fold(run, cache, CityRecipe), Last(run), cache) == Fold(run, cache, CityRecipe)
    {
      CityFold(run, cache);
      var item := Fold(run, cache, CityRecipe);
      assert run[0] in run && Last(run) in run;
      CountrySuggestionsCovered(Last(run).cityname, CountryLangs(cache, item.country), item.cityNames);
      assert CloseCity(item, Last(run), cache).suggestions == item.suggestions;
    }
  }

  // ------------------------------------------------------------------ one document per geoname

  function Ids(docs: seq<GNItem>): (ids: seq<nat>)
    ensures |ids| == |docs|
  {
    seq(|docs|, i requires 0 <= i < |docs| => docs[i].geonameid)
  }

  /** The documents of the runs carry the group keys, in order. */
  lemma FoldAllIds<T(!new), C>(s: seq<T>, key: T -> nat, ctx: C, r: Recipe<T, C>)
    requires forall row: T :: r.open(row, ctx).geonameid == key(row)
    requires forall item: GNItem, row: T :: SameHeader(r.add(item, row, ctx), item)
    ensures Ids(FoldAll(Runs(s, key), ctx, r)) == GroupKeys(s, key)
  {
    RunsHaveGroupKeys(s, key);
    var runs := Runs(s, key);
    forall i | 0 <= i < |runs|
      ensures FoldAll(runs, ctx, r)[i].geonameid == GroupKeys(s, key)[i]
    {
      FoldAllIndex(runs, ctx, r, i);
      FoldHeader(runs[i], ctx, r);
    }
  }

  /**
   * Over rows in key order every geoname gets exactly one document: the ids strictly
   * increase and are exactly the keys of the rows.
   */
  lemma EachGeonameOnce<T(!new), C>(s: seq<T>, key: T -> nat, ctx: C, r: Recipe<T, C>)
    requires SortedBy(s, key)
    requires forall row: T :: r.open(row, ctx).geonameid == key(row)
    requires forall item: GNItem, row: T :: SameHeader(r.add(item, row, ctx), item)
    ensures StrictlySortedBy(Ids(FoldAll(Runs(s, key), ctx, r)), Id)
    ensures (set k | k in Ids(FoldAll(Runs(s, key), ctx, r))) == KeysOf(s, key)
  {
    FoldAllIds(s, key, ctx, r);
    GroupKeysIncrease(s, key);
    GroupKeysCover(s, key);
  }

  /** Each region of the shard after the cursor is emitted once, in id order, and counted once. */
  lemma RegionPages(keys: seq<nat>, rows: seq<RegionRow>, lastId: nat, n: nat, shard: nat, limit: nat, cache: CountryCache)
    requires SortedBy(keys, Id) && SortedBy(rows, RegionKey)
    requires KeysOf(rows, RegionKey) == set k | k in keys
    requires limit > 0 && RegionDependent(rows)
    ensures PagesDocs(GroupPages(keys, rows, RegionKey, lastId, n, shard, limit), RegionKey, cache, RegionRecipe)
            == FoldAll(Runs(RowsAfter(rows, RegionKey, lastId, n, shard), RegionKey), cache, RegionRecipe)
    ensures PagesCount(GroupPages(keys, rows, RegionKey, lastId, n, shard, limit), RegionKey)
            == |Runs(RowsAfter(rows, RegionKey, lastId, n, shard), RegionKey)|
    ensures StrictlySortedBy(Ids(FoldAll(Runs(RowsAfter(rows, RegionKey, lastId, n, shard), RegionKey), cache, RegionRecipe)), Id)
    ensures (set k | k in Ids(FoldAll(Runs(RowsAfter(rows, RegionKey, lastId, n, shard), RegionKey), cache, RegionRecipe)))
            == KeysOf(RowsAfter(rows, RegionKey, lastId, n, shard), RegionKey)
  {
    RegionCloseKeeps(rows, cache);
    PagesDocsAreRuns(keys, rows, RegionKey, lastId, n, shard, limit, cache, RegionRecipe);
    RowsAfterSorted(rows, RegionKey, lastId, n, shard);
    EachGeonameOnce(RowsAfter(rows, RegionKey, lastId, n, shard), RegionKey, cache, RegionRecipe);
  }

  // ------------------------------------------------------------------ the city key sub-query

  /** A geoname row as the city key sub-query sees it: its id and feature class. */
  datatype Place = Place(geonameid: nat, fclass: string)

  /** The city key sub-query as written: every geoname id, populated place or not. */
  function AllPlaceKeys(places: seq<Place>): (keys: seq<nat>)
    ensures |keys| == |places|
    ensures forall i :: 0 <= i < |places| ==> keys[i] == places[i].geonameid
  {
    seq(|places|, i requires 0 <= i < |places| => places[i].geonameid)
  }

  /** The city key sub-query with the outer query's `fclass = 'P'` filter applied to it too. */
  function PopulatedKeys(places: seq<Place>): (keys: seq<nat>)
    ensures forall k :: k in keys <==> exists p :: p in places && p.fclass == "P" && p.geonameid == k
  {
    if places == [] then []
    else (if places[0].fclass == "P" then [places[0].geonameid] else []) + PopulatedKeys(places[1..])
  }

  /**
   * As written, a page of keys holding no populated place reads no row and ends the loop:
   * with a region-level geoname 1 before the town 2 and one key per page, the town is never read.
   */
  lemma CitiesStopEarly()
    ensures var places := [Place(1, "A"), Place(2, "P")];
            var town := CityRow(2, "Town", "Town", "", "", "", "", "", "", "", FloatZero, FloatZero, 0, "XX");
            GroupPages(AllPlaceKeys(places), [town], CityKey, 0, 1, 0, 1) == []
            && RowsAfter([town], CityKey, 0, 1, 0) == [town]
  {
    var places := [Place(1, "A"), Place(2, "P")];
    var town := CityRow(2, "Town", "Town", "", "", "", "", "", "", "", FloatZero, FloatZero, 0, "XX");
    var keys: seq<nat> := [1, 2];
    assert AllPlaceKeys(places) == keys;
    assert RowsAfter(keys[1..], Id, 0, 1, 0) == [2];
    assert RowsAfter(keys, Id, 0, 1, 0) == keys;
    assert SelectedKeys(keys, 0, 1, 0, 1) == [1];
    assert RowsWithKeyIn([town][1..], CityKey, [1]) == [];
    assert GroupPage(keys, [town], CityKey, 0, 1, 0, 1) == [];
    assert RowsAfter([town][1..], CityKey, 0, 1, 0) == [];
  }

  lemma {:induction false} PopulatedKeysSorted(places: seq<Place>)
    requires SortedBy(places, PlaceId)
    ensures SortedBy(PopulatedKeys(places), Id)
    decreases |places|
  {
    if places != [] {
      PopulatedKeysSorted(places[1..]);
      var rest := PopulatedKeys(places[1..]);
      if places[0].fclass == "P" {
        var keys := [places[0].geonameid] + rest;
        forall i, j | 0 <= i < j < |keys| ensures keys[i] <= keys[j] {
          if i == 0 {
            assert keys[j] in rest;
            var p :| p in places[1..] && p.fclass == "P" && p.geonameid == keys[j];
            var m :| 0 <= m < |places[1..]| && places[1..][m] == p;
            assert places[m + 1] == p;
          } else {
            assert keys[i] == rest[i - 1] && keys[j] == rest[j - 1];
          }
        }
      }
    }
  }

  function PlaceId(p: Place): nat { p.geonameid }

  /**
   * With the key sub-query restricted to populated places, every city of the shard after the
   * cursor is emitted once, in id order, and counted once.
   */
  lemma CityPages(places: seq<Place>, rows: seq<CityRow>, lastId: nat, n: nat, shard: nat, limit: nat, cache: CountryCache)
    requires SortedBy(places, PlaceId) && SortedBy(rows, CityKey)
    requires KeysOf(rows, CityKey) == set p | p in places && p.fclass == "P" :: p.geonameid
    requires limit > 0 && CityDependent(rows)
    ensures PagesDocs(GroupPages(PopulatedKeys(places), rows, CityKey, lastId, n, shard, limit), CityKey, cache, CityRecipe)
            == FoldAll(Runs(RowsAfter(rows, CityKey, lastId, n, shard), CityKey), cache, CityRecipe)
    ensures PagesCount(GroupPages(PopulatedKeys(places), rows, CityKey, lastId, n, shard, limit), CityKey)
            == |Runs(RowsAfter(rows, CityKey, lastId, n, shard), CityKey)|
    ensures StrictlySortedBy(Ids(FoldAll(Runs(RowsAfter(rows, CityKey, lastId, n, shard), CityKey), cache, CityRecipe)), Id)
    ensures (set k | k in Ids(FoldAll(Runs(RowsAfter(rows, CityKey, lastId, n, shard), CityKey), cache, CityRecipe)))
            == KeysOf(RowsAfter(rows, CityKey, lastId, n, shard), CityKey)
  {
    CityPagesAreRuns(places, rows, lastId, n, shard, limit, cache);
    RowsAfterSorted(rows, CityKey, lastId, n, shard);
    EachGeonameOnce(RowsAfter(rows, CityKey, lastId, n, shard), CityKey, cache, CityRecipe);
  }

  lemma CityPagesAreRuns(places: seq<Place>, rows: seq<CityRow>, lastId: nat, n: nat, shard: nat, limit: nat, cache: CountryCache)
    requires SortedBy(places, PlaceId) && SortedBy(rows, CityKey)
    requires KeysOf(rows, CityKey) == set p | p in places && p.fclass == "P" :: p.geonameid
    requires limit > 0 && CityDependent(rows)
    ensures PagesDocs(GroupPages(PopulatedKeys(places), rows, CityKey, lastId, n, shard, limit), CityKey, cache, CityRecipe)
            == FoldAll(Runs(RowsAfter(rows, CityKey, lastId, n, shard), CityKey), cache, CityRecipe)
    ensures PagesCount(GroupPages(PopulatedKeys(places), rows, CityKey, lastId, n, shard, limit), CityKey)
            == |Runs(RowsAfter(rows, CityKey, lastId, n, shard), CityKey)|
  {
    var keys := PopulatedKeys(places);
    PopulatedKeysSorted(places);
    assert KeysOf(rows, CityKey) == set k | k in keys;
    CityCloseKeeps(rows, cache);
    PagesDocsAreRuns(keys, rows, CityKey, lastId, n, shard, limit, cache, CityRecipe);
  }
}
