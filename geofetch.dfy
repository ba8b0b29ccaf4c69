/**
 * The fetch goroutines of fetch_geo.go as imperative loops, each proved to send exactly the
 * documents the fold of GeoFold defines.
 *
 * A fetcher's query results are its inputs (the row sequences and, for the paged fetchers,
 * the key tables the LIMIT sub-query reads); what it sends on the channel is returned as a
 * sequence, and what it adds to the shared totalFetch counter is returned as a number.
 */
module GeoFetch {
  import opened Base
  import opened Cursor
  import opened GeoNames
  import opened GeoFold

  /** The zero value of a GNItem: geoname id 0 and no name maps (a write to them panics in Go). */
  const NoItem: GNItem := GNItem("", 0, "", "", 0, "", FloatZero, FloatZero, map[], map[], map[], {})

  // ------------------------------------------------------------------ country suggestions

  /** The languages of `langs` already visited, outside `names`, as suggestions. */
  ghost function Visited(base: string, langs: map<string, string>, names: map<string, string>, rest: set<string>): set<string>
  {
    set lang | lang in langs && lang !in rest && lang !in names :: Space(base, langs[lang])
  }

  lemma VisitedStep(base: string, langs: map<string, string>, names: map<string, string>, rest: set<string>, lang: string)
    requires lang in rest && rest <= langs.Keys
    ensures Visited(base, langs, names, rest - {lang}) ==
              Visited(base, langs, names, rest) + (if lang !in names then {Space(base, langs[lang])} else {})
    ensures |rest - {lang}| < |rest|
  {
  }

  /**
   * The `for lang, name := range countries[c]` loops: add "base name" for every language of
   * the country's cache entry that the document has no name in yet. Go visits the map in an
   * unspecified order; the loop picks any remaining language.
   */
  method AddCountrySuggestions(sugs: set<string>, base: string, langs: map<string, string>, names: map<string, string>)
    returns (r: set<string>)
    ensures r == sugs + CountrySuggestions(base, langs, names)
  {
    r := sugs;
    var rest := langs.Keys;
    while rest != {}
      invariant rest <= langs.Keys
      invariant r == sugs + Visited(base, langs, names, rest)
      decreases |rest|
    {
      var lang :| lang in rest;
      VisitedStep(base, langs, names, rest, lang);
      if lang !in names {
        r := r + {Space(base, langs[lang])};
      }
      rest := rest - {lang};
    }
    assert Visited(base, langs, names, {}) == CountrySuggestions(base, langs, names);
  }

  // ------------------------------------------------------------------ countries

  /**
   * fetchCountries: one pass over the country rows. Every thread builds the cache; only the
   * importing thread sends documents and adds their number to totalFetch. A first row with
   * geoname id 0 matches the zero-valued document, whose nil name map panics on write.
   */
  method FetchCountries(rows: seq<CountryRow>, esImport: bool)
    returns (panicked: bool, cache: CountryCache, docs: seq<GNItem>, fetched: nat)
    ensures panicked <==> rows != [] && rows[0].geonameid == 0
    ensures !panicked ==> cache == CacheOf(rows)
    ensures !panicked ==> docs == if esImport then FoldAll(Runs(rows, CountryKey), (), CountryRecipe) else []
    ensures !panicked ==> fetched == if esImport then |Runs(rows, CountryKey)| else 0
  {
    panicked, cache, docs, fetched := false, map[], [], 0;
    var country := NoItem;
    var lastCount := 0;
    var i := 0;
    while i < |rows|
      invariant i <= |rows|
      invariant i > 0 ==> rows[0].geonameid != 0
      invariant cache == CacheOf(rows[..i])
      invariant i == 0 ==> lastCount == 0 && country == NoItem && docs == []
      invariant i > 0 ==> lastCount == |Runs(rows[..i], CountryKey)|
                          && country == Fold(Last(Runs(rows[..i], CountryKey)), (), CountryRecipe)
                          && country.geonameid == rows[i - 1].geonameid
                          && docs == if esImport then FoldAll(Init(Runs(rows[..i], CountryKey)), (), CountryRecipe) else []
    {
      var row := rows[i];
      assert rows[..i + 1] == rows[..i] + [row];
      if i == 0 {
        FoldFirst(row, CountryKey, (), CountryRecipe);
      } else {
        FoldStep(rows[..i], row, CountryKey, (), CountryRecipe);
      }
      if country.geonameid != row.geonameid {
        if esImport && lastCount > 0 {
          docs := docs + [country];
        }
        country := OpenCountry(row, ());
        lastCount := lastCount + 1;
      } else if lastCount == 0 {
        panicked := true;
        return;
      }
      country := AddCountryRow(country, row, ());
      var langs := CountryLangs(cache, row.country);
      if row.lang !in langs {
        cache := cache[row.country := langs[row.lang := row.name]];
      }
      i := i + 1;
    }
    assert rows[..|rows|] == rows;
    if esImport && lastCount > 0 {
      docs := docs + [country];
      fetched := lastCount;
    }
  }

  // ------------------------------------------------------------------ regions

  /** Opening a region document, with its country-suggestion loop. */
  method OpenRegionItem(row: RegionRow, cache: CountryCache) returns (region: GNItem)
    ensures region == OpenRegion(row, cache)
  {
    var sugs := AddCountrySuggestions({Space(row.name, Localized(cache, row.country, "en"))},
      row.name, CountryLangs(cache, row.country), map[]);
    region := GNItem("region", row.geonameid, row.country, "", row.population, row.timezone,
      row.latitude, row.longitude, map[], map["en" := row.name], map[], sugs);
  }

  /** The first row of a region page opens its first document. */
  lemma RegionFirst(page: seq<RegionRow>, cache: CountryCache)
    requires page != []
    ensures FoldAll(Init(Runs(page[..1], RegionKey)), cache, RegionRecipe) == []
    ensures Fold(Last(Runs(page[..1], RegionKey)), cache, RegionRecipe) == AddRegionRow(OpenRegion(page[0], cache), page[0], cache)
    ensures |Runs(page[..1], RegionKey)| == 1
  {
    assert page[..1] == [page[0]];
    FoldFirst(page[0], RegionKey, cache, RegionRecipe);
  }

  /** Row `j` of a region page either joins the current document or finishes it and opens the next. */
  lemma RegionStep(page: seq<RegionRow>, j: nat, cache: CountryCache)
    requires 0 < j < |page|
    ensures page[j - 1].geonameid == page[j].geonameid ==>
              FoldAll(Init(Runs(page[..j + 1], RegionKey)), cache, RegionRecipe) == FoldAll(Init(Runs(page[..j], RegionKey)), cache, RegionRecipe)
              && Fold(Last(Runs(page[..j + 1], RegionKey)), cache, RegionRecipe) == AddRegionRow(Fold(Last(Runs(page[..j], RegionKey)), cache, RegionRecipe), page[j], cache)
              && |Runs(page[..j + 1], RegionKey)| == |Runs(page[..j], RegionKey)|
    ensures page[j - 1].geonameid != page[j].geonameid ==>
              FoldAll(Init(Runs(page[..j + 1], RegionKey)), cache, RegionRecipe)
                == FoldAll(Init(Runs(page[..j], RegionKey)), cache, RegionRecipe) + [Fold(Last(Runs(page[..j], RegionKey)), cache, RegionRecipe)]
              && Fold(Last(Runs(page[..j + 1], RegionKey)), cache, RegionRecipe) == AddRegionRow(OpenRegion(page[j], cache), page[j], cache)
              && |Runs(page[..j + 1], RegionKey)| == |Runs(page[..j], RegionKey)| + 1
  {
    assert page[..j + 1] == page[..j] + [page[j]];
    assert Last(page[..j]) == page[j - 1];
    FoldStep(page[..j], page[j], RegionKey, cache, RegionRecipe);
  }

  /** What the row loop of a region page holds after `j` rows. */
  ghost predicate RegionPageRead(page: seq<RegionRow>, j: nat, cache: CountryCache, current: GNItem, sent: seq<GNItem>, region: GNItem, count: nat)
    requires j <= |page|
  {
    if j == 0 then sent == [] && region == current && count == 0
    else sent == FoldAll(Init(Runs(page[..j], RegionKey)), cache, RegionRecipe)
         && region == Fold(Last(Runs(page[..j], RegionKey)), cache, RegionRecipe)
         && region.geonameid == page[j - 1].geonameid
         && count == |Runs(page[..j], RegionKey)|
  }

  /** One row of the loop: a new geoname id finishes the current document (if any) and opens one. */
  lemma RegionRowRead(page: seq<RegionRow>, j: nat, cache: CountryCache, current: GNItem,
                   sent: seq<GNItem>, region: GNItem, count: nat, sent': seq<GNItem>, region': GNItem, count': nat)
    requires j < |page| && page[0].geonameid != current.geonameid
    requires RegionPageRead(page, j, cache, current, sent, region, count)
    requires var opens := region.geonameid != page[j].geonameid;
             sent' == (if opens && count > 0 then sent + [region] else sent)
             && region' == AddRegionRow(if opens then OpenRegion(page[j], cache) else region, page[j], cache)
             && count' == if opens then count + 1 else count
    ensures RegionPageRead(page, j + 1, cache, current, sent', region', count')
  {
    if j == 0 {
      RegionFirst(page, cache);
    } else {
      RegionStep(page, j, cache);
    }
  }

  /**
   * The row loop of one region page: sends every finished document and returns the page's
   * last, still open, document and how many documents the page opened.
   */
  method ReadRegionPage(page: seq<RegionRow>, cache: CountryCache, current: GNItem)
    returns (sent: seq<GNItem>, region: GNItem, count: nat)
    requires page == [] || page[0].geonameid != current.geonameid
    ensures page == [] ==> sent == [] && region == current && count == 0
    ensures page != [] ==> sent == FoldAll(Init(Runs(page, RegionKey)), cache, RegionRecipe)
                           && region == Fold(Last(Runs(page, RegionKey)), cache, RegionRecipe)
                           && region.geonameid == Last(page).geonameid
                           && count == |Runs(page, RegionKey)|
  {
    sent, region, count := [], current, 0;
    var j := 0;
    while j < |page|
      invariant j <= |page|
      invariant RegionPageRead(page, j, cache, current, sent, region, count)
    {
      var row := page[j];
      ghost var sent0, region0, count0 := sent, region, count;
      if region.geonameid != row.geonameid {
        if count > 0 {
          sent := sent + [region];
        }
        region := OpenRegionItem(row, cache);
        count := count + 1;
      }
      region := AddRegionRow(region, row, cache);
      RegionRowRead(page, j, cache, current, sent0, region0, count0, sent, region, count);
      j := j + 1;
    }
    assert page[..|page|] == page;
  }

  /**
   * fetchRegions: page through the shard's admin1 keys, `limit` keys a page, until a page
   * reads no row; close and send each page's last document and add the page's count to
   * totalFetch. The documents are those of the pages of GroupPages.
   */
  method FetchRegions(keys: seq<nat>, rows: seq<RegionRow>, n: nat, shard: nat, limit: nat, cache: CountryCache)
    returns (docs: seq<GNItem>, fetched: nat)
    ensures docs == PagesDocs(GroupPages(keys, rows, RegionKey, 0, n, shard, limit), RegionKey, cache, RegionRecipe)
    ensures fetched == PagesCount(GroupPages(keys, rows, RegionKey, 0, n, shard, limit), RegionKey)
  {
    docs, fetched := [], 0;
    var region := NoItem;
    var lastId: nat := 0;
    while true
      invariant region.geonameid <= lastId
      invariant PagesRead(keys, rows, RegionKey, lastId, n, shard, limit, cache, RegionRecipe, docs, fetched)
      decreases |RowsAfter(rows, RegionKey, lastId, n, shard)|
    {
      var page := GroupPage(keys, rows, RegionKey, lastId, n, shard, limit);
      assert page != [] ==> page[0] in page;
      var sent, item, count := ReadRegionPage(page, cache, region);
      if count == 0 {
        PagesReadEnd(keys, rows, RegionKey, lastId, n, shard, limit, cache, RegionRecipe, docs, fetched);
        break;
      }
      PagesReadStep(keys, rows, RegionKey, lastId, n, shard, limit, cache, RegionRecipe, docs, fetched);
      var sugs := AddCountrySuggestions(item.suggestions, Last(page).name, CountryLangs(cache, item.country), item.regionNames);
      region := item.(suggestions := sugs);
      assert region == RegionRecipe.close(item, Last(page), cache);
      assert sent + [region] == PageDocs(page, RegionKey, cache, RegionRecipe);
      AppendAssoc(docs, sent, [region]);
      docs := docs + sent + [region];
      fetched := fetched + count;
      lastId := Last(page).geonameid;
    }
  }

  // ------------------------------------------------------------------ cities

  /** Opening a city document, with its country-suggestion loop. */
  method OpenCityItem(row: CityRow, cache: CountryCache) returns (city: GNItem)
    ensures city == OpenCity(row, cache)
  {
    var en := Localized(cache, row.country, "en");
    var cityRegion := row.cityname;
    if row.regname != "" {
      cityRegion := Space(cityRegion, row.regname);
    }
    var sugs := AddCountrySuggestions({Space(cityRegion, en), Space(row.cityname, en)},
      row.cityname, CountryLangs(cache, row.country), map[]);
    city := GNItem("city", row.geonameid, row.country, row.regid, row.population, row.timezone,
      row.latitude, row.longitude, map["en" := row.cityname], map["en" := row.regname], map[], sugs);
  }

  /** The first row of a city page opens its first document. */
  lemma CityFirst(page: seq<CityRow>, cache: CountryCache)
    requires page != []
    ensures FoldAll(Init(Runs(page[..1], CityKey)), cache, CityRecipe) == []
    ensures Fold(Last(Runs(page[..1], CityKey)), cache, CityRecipe) == AddCityRow(OpenCity(page[0], cache), page[0], cache)
    ensures |Runs(page[..1], CityKey)| == 1
  {
    assert page[..1] == [page[0]];
    FoldFirst(page[0], CityKey, cache, CityRecipe);
  }

  /** Row `j` of a city page either joins the current document or finishes it and opens the next. */
  lemma CityStep(page: seq<CityRow>, j: nat, cache: CountryCache)
    requires 0 < j < |page|
    ensures page[j - 1].geonameid == page[j].geonameid ==>
              FoldAll(Init(Runs(page[..j + 1], CityKey)), cache, CityRecipe) == FoldAll(Init(Runs(page[..j], CityKey)), cache, CityRecipe)
              && Fold(Last(Runs(page[..j + 1], CityKey)), cache, CityRecipe) == AddCityRow(Fold(Last(Runs(page[..j], CityKey)), cache, CityRecipe), page[j], cache)
              && |Runs(page[..j + 1], CityKey)| == |Runs(page[..j], CityKey)|
    ensures page[j - 1].geonameid != page[j].geonameid ==>
              FoldAll(Init(Runs(page[..j + 1], CityKey)), cache, CityRecipe)
                == FoldAll(Init(Runs(page[..j], CityKey)), cache, CityRecipe) + [Fold(Last(Runs(page[..j], CityKey)), cache, CityRecipe)]
              && Fold(Last(Runs(page[..j + 1], CityKey)), cache, CityRecipe) == AddCityRow(OpenCity(page[j], cache), page[j], cache)
              && |Runs(page[..j + 1], CityKey)| == |Runs(page[..j], CityKey)| + 1
  {
    assert page[..j + 1] == page[..j] + [page[j]];
    assert Last(page[..j]) == page[j - 1];
    FoldStep(page[..j], page[j], CityKey, cache, CityRecipe);
  }

  /** What the row loop of a city page holds after `j` rows. */
  ghost predicate CityPageRead(page: seq<CityRow>, j: nat, cache: CountryCache, current: GNItem, sent: seq<GNItem>, city: GNItem, count: nat)
    requires j <= |page|
  {
    if j == 0 then sent == [] && city == current && count == 0
    else sent == FoldAll(Init(Runs(page[..j], CityKey)), cache, CityRecipe)
         && city == Fold(Last(Runs(page[..j], CityKey)), cache, CityRecipe)
         && city.geonameid == page[j - 1].geonameid
         && count == |Runs(page[..j], CityKey)|
  }

  /** One row of the loop: a new geoname id finishes the current document (if any) and opens one. */
  lemma CityRowRead(page: seq<CityRow>, j: nat, cache: CountryCache, current: GNItem,
                   sent: seq<GNItem>, city: GNItem, count: nat, sent': seq<GNItem>, city': GNItem, count': nat)
    requires j < |page| && page[0].geonameid != current.geonameid
    requires CityPageRead(page, j, cache, current, sent, city, count)
    requires var opens := city.geonameid != page[j].geonameid;
             sent' == (if opens && count > 0 then sent + [city] else sent)
             && city' == AddCityRow(if opens then OpenCity(page[j], cache) else city, page[j], cache)
             && count' == if opens then count + 1 else count
    ensures CityPageRead(page, j + 1, cache, current, sent', city', count')
  {
    if j == 0 {
      CityFirst(page, cache);
    } else {
      CityStep(page, j, cache);
    }
  }

  /** The row loop of one city page. */
  method ReadCityPage(page: seq<CityRow>, cache: CountryCache, current: GNItem)
    returns (sent: seq<GNItem>, city: GNItem, count: nat)
    requires page == [] || page[0].geonameid != current.geonameid
    ensures page == [] ==> sent == [] && city == current && count == 0
    ensures page != [] ==> sent == FoldAll(Init(Runs(page, CityKey)), cache, CityRecipe)
                           && city == Fold(Last(Runs(page, CityKey)), cache, CityRecipe)
                           && city.geonameid == Last(page).geonameid
                           && count == |Runs(page, CityKey)|
  {
    sent, city, count := [], current, 0;
    var j := 0;
    while j < |page|
      invariant j <= |page|
      invariant CityPageRead(page, j, cache, current, sent, city, count)
    {
      var row := page[j];
      ghost var sent0, city0, count0 := sent, city, count;
      if city.geonameid != row.geonameid {
        if count > 0 {
          sent := sent + [city];
        }
        city := OpenCityItem(row, cache);
        count := count + 1;
      }
      city := AddCityRow(city, row, cache);
      CityRowRead(page, j, cache, current, sent0, city0, count0, sent, city, count);
      j := j + 1;
    }
    assert page[..|page|] == page;
  }

  /**
   * fetchCities: page through the city key sub-query's keys (`keys`, in id order) until a page
   * reads no row. The program passes every geoname id (AllPlaceKeys, see CitiesStopEarly); the
   * populated-place keys (PopulatedKeys, see CityPages) are the sub-query as intended.
   */
  method FetchCities(keys: seq<nat>, rows: seq<CityRow>, n: nat, shard: nat, limit: nat, cache: CountryCache)
    returns (docs: seq<GNItem>, fetched: nat)
    ensures docs == PagesDocs(GroupPages(keys, rows, CityKey, 0, n, shard, limit), CityKey, cache, CityRecipe)
    ensures fetched == PagesCount(GroupPages(keys, rows, CityKey, 0, n, shard, limit), CityKey)
  {
    docs, fetched := [], 0;
    var city := NoItem;
    var lastId: nat := 0;
    while true
      invariant city.geonameid <= lastId
      invariant PagesRead(keys, rows, CityKey, lastId, n, shard, limit, cache, CityRecipe, docs, fetched)
      decreases |RowsAfter(rows, CityKey, lastId, n, shard)|
    {
      var page := GroupPage(keys, rows, CityKey, lastId, n, shard, limit);
      assert page != [] ==> page[0] in page;
      var sent, item, count := ReadCityPage(page, cache, city);
      if count == 0 {
        PagesReadEnd(keys, rows, CityKey, lastId, n, shard, limit, cache, CityRecipe, docs, fetched);
        break;
      }
      PagesReadStep(keys, rows, CityKey, lastId, n, shard, limit, cache, CityRecipe, docs, fetched);
      var sugs := AddCountrySuggestions(item.suggestions, Last(page).cityname, CountryLangs(cache, item.country), item.cityNames);
      city := item.(suggestions := sugs);
      assert city == CityRecipe.close(item, Last(page), cache);
      assert sent + [city] == PageDocs(page, CityKey, cache, CityRecipe);
      AppendAssoc(docs, sent, [city]);
      docs := docs + sent + [city];
      fetched := fetched + count;
      lastId := Last(page).geonameid;
    }
  }

  // ------------------------------------------------------------------ one fetch goroutine

  /** The tables the geographic queries read, as their result rows. */
  datatype GeoTables = GeoTables(
    countries: seq<CountryRow>,
    admin1Keys: seq<nat>,
    regions: seq<RegionRow>,
    places: seq<Place>,
    cities: seq<CityRow>)

  /**
   * fetchGeoNames for thread `thread` of `threads`: countries (sent by thread 0 only, cached
   * by all), then the thread's regions and cities, the cities paged over every geoname id
   * as the program's key sub-query reads them.
   */
  method FetchGeoNames(t: GeoTables, threads: nat, thread: nat, limit: nat)
    returns (panicked: bool, docs: seq<GNItem>, fetched: nat)
    ensures panicked <==> t.countries != [] && t.countries[0].geonameid == 0
    ensures !panicked ==>
      var cache := CacheOf(t.countries);
      docs == (if thread == 0 then FoldAll(Runs(t.countries, CountryKey), (), CountryRecipe) else [])
              + PagesDocs(GroupPages(t.admin1Keys, t.regions, RegionKey, 0, threads, thread, limit), RegionKey, cache, RegionRecipe)
              + PagesDocs(GroupPages(AllPlaceKeys(t.places), t.cities, CityKey, 0, threads, thread, limit), CityKey, cache, CityRecipe)
  {
    var esIndex := thread == 0;
    var cache, countryDocs, countryCount;
    panicked, cache, countryDocs, countryCount := FetchCountries(t.countries, esIndex);
    if panicked {
      docs, fetched := [], 0;
      return;
    }
    var regionDocs, regionCount := FetchRegions(t.admin1Keys, t.regions, threads, thread, limit, cache);
    var cityDocs, cityCount := FetchCities(AllPlaceKeys(t.places), t.cities, threads, thread, limit, cache);
    docs := countryDocs + regionDocs + cityDocs;
    fetched := countryCount + regionCount + cityCount;
  }
}
