/**
 * The geographic records of geoname.go: a raw geoname row with its alternate-name parser, the
 * rows the migration writes, the aggregate read back for indexing, and the search document
 * GNItem that the geographic fold builds.
 */
module GeoNames {
  import opened Base
  import opened Strings

  // ------------------------------------------------------------ alternate names

  /** One alternate name; the identifiers and the short/colloquial/historic flags stay zero here. */
  datatype GeoAlternateName = GeoAlternateName(name: string, language: string, isPreferredName: bool)

  /** The English entry that Prepare always appends last. */
  function EnglishName(name: string): GeoAlternateName
  {
    GeoAlternateName(name, "en", true)
  }

  /**
   * One "|"-piece of `alternativenames_as_string`, split on ",": the name, then the language when
   * there is a second field, and "preferred" only for exactly three fields the third being "1".
   */
  function ParsePiece(piece: string): (a: GeoAlternateName)
    ensures ',' !in a.name && ',' !in a.language
  {
    var parts := Split(piece, ',');
    GeoAlternateName(
      parts[0],
      if |parts| >= 2 then parts[1] else "",
      |parts| == 3 && parts[2] == "1")
  }

  /** The list Prepare rebuilds: one entry per "|"-piece, in order, then the English entry. */
  function AlternativeNamesOf(asString: string, name: string): (r: seq<GeoAlternateName>)
    ensures |r| == (if asString == "" then 1 else |Split(asString, '|')| + 1)
    ensures r[|r| - 1] == EnglishName(name)
  {
    var pieces := if asString == "" then [] else Split(asString, '|');
    seq(|pieces|, i requires 0 <= i < |pieces| => ParsePiece(pieces[i])) + [EnglishName(name)]
  }

  /** How a database GROUP_CONCAT writes one alternate name: "name,lang,1" or "name,lang,0". */
  function RenderName(a: GeoAlternateName): string
  {
    Join([a.name, a.language, if a.isPreferredName then "1" else "0"], ',')
  }

  function RenderNames(names: seq<GeoAlternateName>): string
  {
    Join(seq(|names|, i requires 0 <= i < |names| => RenderName(names[i])), '|')
  }

  /** Names and languages free of the two separators survive a render and a parse. */
  predicate Separable(a: GeoAlternateName)
  {
    ',' !in a.name && '|' !in a.name && ',' !in a.language && '|' !in a.language
  }

  lemma ParsePieceRender(a: GeoAlternateName)
    requires Separable(a)
    ensures ParsePiece(RenderName(a)) == a
  {
    var parts := [a.name, a.language, if a.isPreferredName then "1" else "0"];
    SplitJoin(parts, ',');
  }

  lemma RenderNameNoBar(a: GeoAlternateName)
    requires Separable(a)
    ensures '|' !in RenderName(a)
  {
    var parts := [a.name, a.language, if a.isPreferredName then "1" else "0"];
    assert parts[1..][1..] == [parts[2]];
    assert Join(parts[1..], ',') == a.language + [','] + parts[2];
    assert RenderName(a) == a.name + [','] + (a.language + [','] + parts[2]);
  }

  /**
   * Prepare inverts the database's rendering: a non-empty list of separable names comes back
   * entry for entry, followed by the English entry for the base name.
   */
  lemma AlternativeNamesRoundTrip(names: seq<GeoAlternateName>, name: string)
    requires names != []
    requires forall i :: 0 <= i < |names| ==> Separable(names[i])
    ensures AlternativeNamesOf(RenderNames(names), name) == names + [EnglishName(name)]
  {
    var rendered := seq(|names|, i requires 0 <= i < |names| => RenderName(names[i]));
    forall i | 0 <= i < |rendered| ensures '|' !in rendered[i] {
      RenderNameNoBar(names[i]);
    }
    SplitJoin(rendered, '|');
    assert RenderNames(names) != "" by {
      RenderNameNoBar(names[0]);
      assert |Split(RenderNames(names), '|')| == |names|;
    }
    forall i | 0 <= i < |names| ensures ParsePiece(rendered[i]) == names[i] {
      ParsePieceRender(names[i]);
    }
  }

  /** What a piece with a given number of fields parses to. */
  lemma ParsePieceFields(fields: seq<string>)
    requires 1 <= |fields|
    requires forall i :: 0 <= i < |fields| ==> ',' !in fields[i]
    ensures ParsePiece(Join(fields, ',')).name == fields[0]
    ensures ParsePiece(Join(fields, ',')).language == if |fields| >= 2 then fields[1] else ""
    ensures ParsePiece(Join(fields, ',')).isPreferredName <==> |fields| == 3 && fields[2] == "1"
  {
    SplitJoin(fields, ',');
  }

  /** Later entries overwrite earlier ones; entries without a language are skipped. */
  function LocalizationNames(names: seq<GeoAlternateName>): map<string, string>
  {
    if names == [] then map[]
    else
      var m := LocalizationNames(Init(names));
      if Last(names).language == "" then m else m[Last(names).language := Last(names).name]
  }

  /**
   * The map has a key for each non-empty language of the list, holding the name of the last
   * entry in that language.
   */
  lemma {:induction false} LocalizationNamesLastWins(names: seq<GeoAlternateName>, lang: string)
    ensures lang in LocalizationNames(names) <==>
              lang != "" && exists i :: 0 <= i < |names| && names[i].language == lang
    ensures forall i :: 0 <= i < |names| && names[i].language == lang && lang != "" &&
              (forall j :: i < j < |names| ==> names[j].language != lang)
              ==> LocalizationNames(names)[lang] == names[i].name
    decreases |names|
  {
    if names != [] {
      var p := Init(names);
      LocalizationNamesLastWins(p, lang);
      assert forall i :: 0 <= i < |p| ==> p[i] == names[i];
      if lang in LocalizationNames(p) {
        var i :| 0 <= i < |p| && p[i].language == lang;
        assert names[i].language == lang;
      }
    }
  }

  /** After Prepare, the English entry is last, so "en" always maps to the base name. */
  lemma LocalizationAfterPrepare(asString: string, name: string)
    ensures "en" in LocalizationNames(AlternativeNamesOf(asString, name))
    ensures LocalizationNames(AlternativeNamesOf(asString, name))["en"] == name
  {
    var names := AlternativeNamesOf(asString, name);
    LocalizationNamesLastWins(names, "en");
    assert names[|names| - 1].language == "en";
  }

  // ------------------------------------------------------------------ geoname

  /** A row of the `geoname` table, with the fields the reindexer reads. */
  datatype GeoName = GeoName(
    geonameid: nat,
    name: string,
    asciiname: string,
    fclass: string,
    country: string,
    admin1: string,
    population: Uint32,
    timezone: string,
    latitude: Float,
    longitude: Float,
    alternativeNamesAsString: string,
    alternativeNames: seq<GeoAlternateName>)
  {
    function GetId(): nat
    {
      geonameid
    }

    function TableName(): string
    {
      "geoname"
    }

    /** The record after Prepare: only the alternate-name list changes. */
    function Prepared(): (g: GeoName)
      ensures g.alternativeNames == AlternativeNamesOf(alternativeNamesAsString, name)
      ensures g.(alternativeNames := alternativeNames) == this
    {
      this.(alternativeNames := AlternativeNamesOf(alternativeNamesAsString, name))
    }

    /**
     * Resets the alternate-name list, appends one entry per "|"-piece of the concatenated
     * string (when it is not empty), then the English entry for the base name.
     */
    method Prepare() returns (g: GeoName)
      ensures g == Prepared()
    {
      var list: seq<GeoAlternateName> := [];
      if alternativeNamesAsString != "" {
        var languagesInfo := Split(alternativeNamesAsString, '|');
        var i := 0;
        while i < |languagesInfo|
          invariant 0 <= i <= |languagesInfo|
          invariant list == seq(i, k requires 0 <= k < i => ParsePiece(languagesInfo[k]))
        {
          var parts := Split(languagesInfo[i], ',');
          var language := "";
          if |parts| >= 2 {
            language := parts[1];
          }
          var isPreferredName := false;
          if |parts| == 3 {
            isPreferredName := parts[2] == "1";
          }
          list := list + [GeoAlternateName(parts[0], language, isPreferredName)];
          i := i + 1;
        }
      }
      list := list + [EnglishName(name)];
      g := this.(alternativeNames := list);
    }

    /** The language-to-name map of the prepared list. */
    method GetLocalizationNames() returns (result: map<string, string>)
      ensures result == LocalizationNames(alternativeNames)
    {
      result := map[];
      var i := 0;
      while i < |alternativeNames|
        invariant 0 <= i <= |alternativeNames|
        invariant result == LocalizationNames(alternativeNames[..i])
      {
        var alterName := alternativeNames[i];
        assert alternativeNames[..i + 1] == alternativeNames[..i] + [alterName];
        if alterName.language != "" {
          result := result[alterName.language := alterName.name];
        }
        i := i + 1;
      }
      assert alternativeNames[..i] == alternativeNames;
    }
  }

  /** Preparing twice gives the same record as preparing once. */
  lemma PrepareIdempotent(g: GeoName)
    ensures g.Prepared().Prepared() == g.Prepared()
  {
  }

  // ------------------------------------------------------------------ rows written by the migration

  /** A row of `gn_object`; `names` is the JSON text of the localization map. */
  datatype GNObject = GNObject(
    id: nat,
    names: string,
    latitude: Float,
    longitude: Float,
    population: Uint32,
    iso: string,
    timezone: string,
    regionId: Option<nat>)
  {
    function TableName(): string
    {
      "gn_object"
    }

    /** The column values for a positional INSERT, in declaration order. */
    function GetValues(): (values: seq<Json>)
      ensures |values| == |GNObjectColumns|
      ensures forall i :: 0 <= i < |values| ==> values[i] == Column(GNObjectColumns[i])
    {
      [JNum(id), JStr(names), JFloat(latitude), JFloat(longitude), JNum(population), JStr(iso),
       JStr(timezone), NullableId(regionId)]
    }

    /** A column's value by the column's name. */
    function Column(column: string): Json
    {
      match column
      case "id" => JNum(id)
      case "names" => JStr(names)
      case "latitude" => JFloat(latitude)
      case "longitude" => JFloat(longitude)
      case "population" => JNum(population)
      case "iso" => JStr(iso)
      case "timezone" => JStr(timezone)
      case "region_id" => NullableId(regionId)
      case _ => JNull
    }
  }

  const GNObjectColumns: seq<string> :=
    ["id", "names", "latitude", "longitude", "population", "iso", "timezone", "region_id"]

  /** A nil *uint64 becomes SQL NULL. */
  function NullableId(id: Option<nat>): Json
  {
    match id
    case None => JNull
    case Some(v) => JNum(v)
  }

  /** A row of `gn_object_alternatenames`; `names` is the JSON text of the alternate-name list. */
  datatype GNObjectAlternateNames = GNObjectAlternateNames(id: nat, names: string)
  {
    function TableName(): string
    {
      "gn_object_alternatenames"
    }

    /** The column values for a positional INSERT, in declaration order. */
    function GetValues(): (values: seq<Json>)
      ensures |values| == |GNObjectAlternateNamesColumns|
      ensures forall i :: 0 <= i < |values| ==> values[i] == Column(GNObjectAlternateNamesColumns[i])
    {
      [JNum(id), JStr(names)]
    }

    /** A column's value by the column's name; `Names` is stored as `alternatenames`. */
    function Column(column: string): Json
    {
      match column
      case "id" => JNum(id)
      case "alternatenames" => JStr(names)
      case _ => JNull
    }
  }

  const GNObjectAlternateNamesColumns: seq<string> := ["id", "alternatenames"]

  /** A row of `admin1CodesAscii`: "<country>.<admin1>" and the region's geoname id. */
  datatype GeoAdmin1Code = GeoAdmin1Code(code: string, name: string, nameAscii: string, geonameid: nat)

  // ------------------------------------------------------------------ aggregate read back for indexing

  datatype GNObjectAggregate = GNObjectAggregate(
    id: nat,
    names: string,
    latitude: Float,
    longitude: Float,
    population: Uint32,
    iso: string,
    timezone: string,
    regionId: Option<nat>,
    alternatenames: string)
  {
    function GetIndex(): string
    {
      "geonames"
    }

    /** A record with a parent region is a city; one without is a region. */
    function GetType(): (t: string)
      ensures t == "city" <==> regionId.Some?
      ensures t == "region" <==> regionId.None?
    {
      if regionId.Some? then "city" else "region"
    }

    function GetId(): nat
    {
      id
    }

    function GetParent(): (parent: Option<nat>)
      ensures parent.Some? <==> GetType() == "city"
    {
      regionId
    }

    /** The document body; the two JSON columns are decoded by an encoder this model keeps opaque. */
    function GetSearchData(): (body: map<string, Json>)
      ensures body.Keys == {"iso", "population", "timezone", "region_id", "location", "alternatenames", "names"}
      ensures body["region_id"] == NullableId(GetParent())
      ensures body["location"] == JObject(map["lat" := JFloat(latitude), "lon" := JFloat(longitude)])
    {
      map[
        "iso" := JStr(iso),
        "population" := JNum(population),
        "timezone" := JStr(timezone),
        "region_id" := NullableId(regionId),
        "location" := JObject(map["lat" := JFloat(latitude), "lon" := JFloat(longitude)]),
        "alternatenames" := JDecoded(alternatenames),
        "names" := JDecoded(names)]
    }
  }

  // ------------------------------------------------------------------ the search document

  /** A country, region or city document; `suggestions` is the key set of a map[string]bool. */
  datatype GNItem = GNItem(
    itemType: string,
    geonameid: nat,
    country: string,
    regionid: string,
    population: Int32,
    timezone: string,
    latitude: Float,
    longitude: Float,
    cityNames: map<string, string>,
    regionNames: map<string, string>,
    countryNames: map<string, string>,
    suggestions: set<string>)
  {
    function GetIndex(): string
    {
      "geo"
    }

    function GetType(): string
    {
      itemType
    }

    function GetId(): nat
    {
      geonameid
    }

    function GetParent(): Option<nat>
    {
      None
    }

    /**
     * The document body for a given order of the suggestions: the fixed fields, then one entry
     * per city, region and country name under its prefixed key (later loops overwrite earlier
     * keys), then the suggestion list, then "regionid" for a city.
     */
    function SearchData(suggest: seq<string>): map<string, Json>
    {
      var withSuggest := NamedFields()["suggest" := JList(Strs(suggest))];
      if itemType == "city" then withSuggest["regionid" := JStr(regionid)] else withSuggest
    }

    /** The fixed fields, with an empty suggestion list. */
    function FixedFields(): map<string, Json>
    {
      map[
        "country_iso2" := JStr(country),
        "location" := JLatLon(latitude, longitude),
        "population" := JStr(IntToDecimal(population)),
        "suggest" := JList([]),
        "timezone" := JStr(timezone)]
    }

    /** The fixed fields, then the city, region and country names under their prefixed keys. */
    function NamedFields(): map<string, Json>
    {
      FixedFields()
        + PrefixedNames("city_", cityNames)
        + PrefixedNames("region_", regionNames)
        + PrefixedNames("country_", countryNames)
    }

    /**
     * Builds the document body. Map iteration order is unspecified in Go, so the order of the
     * "suggest" list is left open: it holds each suggestion exactly once.
     */
    method GetSearchData() returns (body: map<string, Json>, suggest: seq<string>)
      ensures body == SearchData(suggest)
      ensures |suggest| == |suggestions|
      ensures forall s :: s in suggest <==> s in suggestions
      ensures forall i, j :: 0 <= i < j < |suggest| ==> suggest[i] != suggest[j]
    {
      body := FixedFields();
      body := AddPrefixed(body, "city_", cityNames);
      body := AddPrefixed(body, "region_", regionNames);
      body := AddPrefixed(body, "country_", countryNames);
      suggest := [];
      var left := suggestions;
      while left != {}
        invariant left <= suggestions
        invariant forall s :: s in suggest <==> s in suggestions - left
        invariant |suggest| + |left| == |suggestions|
        invariant forall i, j :: 0 <= i < j < |suggest| ==> suggest[i] != suggest[j]
        decreases |left|
      {
        var sug :| sug in left;
        assert sug !in suggest;
        suggest := suggest + [sug];
        left := left - {sug};
      }
      body := body["suggest" := JList(Strs(suggest))];
      if itemType == "city" {
        body := body["regionid" := JStr(regionid)];
      }
    }
  }

  function Strs(ss: seq<string>): (js: seq<Json>)
    ensures |js| == |ss|
    ensures forall i :: 0 <= i < |ss| ==> js[i] == JStr(ss[i])
  {
    if ss == [] then [] else [JStr(ss[0])] + Strs(ss[1..])
  }

  lemma PrefixedKey(k: string, prefix: string, lang: string)
    requires |k| >= |prefix| && k[..|prefix|] == prefix && k[|prefix|..] == lang
    ensures k == prefix + lang
  {
    assert k == k[..|prefix|] + k[|prefix|..];
  }

  /** One entry `prefix + lang` per language of the map, holding that language's name. */
  function PrefixedNames(prefix: string, names: map<string, string>): map<string, Json>
  {
    PrefixInjective(prefix);
    map lang | lang in names :: prefix + lang := JStr(names[lang])
  }

  lemma PrefixInjective(prefix: string)
    ensures forall a: string, b: string :: prefix + a == prefix + b ==> a == b
  {
    forall a: string, b: string | prefix + a == prefix + b ensures a == b {
      assert a == (prefix + a)[|prefix|..];
    }
  }

  /** Each language's name is found under its prefixed key. */
  lemma PrefixedHit(prefix: string, names: map<string, string>, lang: string)
    requires lang in names
    ensures prefix + lang in PrefixedNames(prefix, names)
    ensures PrefixedNames(prefix, names)[prefix + lang] == JStr(names[lang])
  {
    assert (prefix + lang)[|prefix|..] == lang;
  }

  /** Every key is some language of the map behind the prefix. */
  lemma PrefixedDomain(prefix: string, names: map<string, string>, k: string)
    requires k in PrefixedNames(prefix, names)
    ensures |prefix| <= |k| && k[..|prefix|] == prefix && k[|prefix|..] in names
  {
    var lang :| lang in names && k == prefix + lang;
    assert k[..|prefix|] == prefix && k[|prefix|..] == lang;
  }

  /** A key that differs from the prefix at some position is not a prefixed key. */
  lemma PrefixedMiss(k: string, prefix: string, names: map<string, string>, i: nat)
    requires i < |prefix| && i < |k| && k[i] != prefix[i]
    ensures k !in PrefixedNames(prefix, names)
  {
    if k in PrefixedNames(prefix, names) {
      PrefixedDomain(prefix, names, k);
    }
  }

  /** A language absent from the map has no prefixed key. */
  lemma PrefixedAbsent(prefix: string, names: map<string, string>, lang: string)
    requires lang !in names
    ensures prefix + lang !in PrefixedNames(prefix, names)
  {
    if prefix + lang in PrefixedNames(prefix, names) {
      PrefixedDomain(prefix, names, prefix + lang);
    }
  }

  /** Adding a language adds exactly its prefixed entry. */
  lemma PrefixedUpdate(prefix: string, names: map<string, string>, lang: string, name: string)
    requires lang !in names
    ensures PrefixedNames(prefix, names[lang := name])
            == PrefixedNames(prefix, names)[prefix + lang := JStr(name)]
  {
    var a := PrefixedNames(prefix, names[lang := name]);
    var b := PrefixedNames(prefix, names)[prefix + lang := JStr(name)];
    forall k | k in a ensures k in b && a[k] == b[k] {
      PrefixedDomain(prefix, names[lang := name], k);
      var l := k[|prefix|..];
      PrefixedKey(k, prefix, l);
      if l != lang {
        PrefixedHit(prefix, names, l);
      }
    }
    forall k | k in b ensures k in a {
      if k != prefix + lang {
        PrefixedDomain(prefix, names, k);
        var l := k[|prefix|..];
        PrefixedKey(k, prefix, l);
        PrefixedHit(prefix, names[lang := name], l);
      } else {
        PrefixedHit(prefix, names[lang := name], lang);
      }
    }
  }

  lemma MergeUpdate<K, V>(a: map<K, V>, b: map<K, V>, k: K, v: V)
    ensures a + b[k := v] == (a + b)[k := v]
  {
  }

  lemma UpdateMerge<K, V>(a: map<K, V>, b: map<K, V>, k: K, v: V)
    requires k !in b
    ensures a[k := v] + b == (a + b)[k := v]
  {
  }

  /** Writing one language's entry and dropping it from the pending map keeps the final result. */
  lemma AddPrefixedStep(r: map<string, Json>, prefix: string, rest: map<string, string>, lang: string)
    requires lang in rest
    ensures r[prefix + lang := JStr(rest[lang])] + PrefixedNames(prefix, rest - {lang})
            == r + PrefixedNames(prefix, rest)
    ensures |rest - {lang}| < |rest|
  {
    var smaller := rest - {lang};
    assert rest == smaller[lang := rest[lang]];
    PrefixedUpdate(prefix, smaller, lang, rest[lang]);
    PrefixedAbsent(prefix, smaller, lang);
    MergeUpdate(r, PrefixedNames(prefix, smaller), prefix + lang, JStr(rest[lang]));
    UpdateMerge(r, PrefixedNames(prefix, smaller), prefix + lang, JStr(rest[lang]));
  }

  /** The loop `for lang, name := range names { body[prefix+lang] = name }`. */
  method AddPrefixed(body: map<string, Json>, prefix: string, names: map<string, string>)
    returns (r: map<string, Json>)
    ensures r == body + PrefixedNames(prefix, names)
  {
    r := body;
    var rest := names;
    assert PrefixedNames(prefix, map[]) == map[];
    while rest != map[]
      invariant r + PrefixedNames(prefix, rest) == body + PrefixedNames(prefix, names)
      decreases |rest|
    {
      var lang :| lang in rest;
      AddPrefixedStep(r, prefix, rest, lang);
      r := r[prefix + lang := JStr(rest[lang])];
      rest := rest - {lang};
    }
    assert PrefixedNames(prefix, rest) == map[];
  }

  /** Apart from "suggest" and "regionid", the body holds exactly the named fields. */
  lemma SearchDataOther(item: GNItem, suggest: seq<string>, k: string)
    requires k != "suggest" && k != "regionid"
    ensures k in item.SearchData(suggest) <==> k in item.NamedFields()
    ensures k in item.NamedFields() ==> item.SearchData(suggest)[k] == item.NamedFields()[k]
  {
  }

  /** Each city name sits under "city_" + its language; no later field overwrites it. */
  lemma SearchDataCityNames(item: GNItem, suggest: seq<string>, lang: string)
    requires lang in item.cityNames
    ensures "city_" + lang in item.SearchData(suggest)
    ensures item.SearchData(suggest)["city_" + lang] == JStr(item.cityNames[lang])
  {
    var k := "city_" + lang;
    PrefixedHit("city_", item.cityNames, lang);
    PrefixedMiss(k, "region_", item.regionNames, 0);
    PrefixedMiss(k, "country_", item.countryNames, 1);
    MergeLookup(item.FixedFields(), PrefixedNames("city_", item.cityNames),
      PrefixedNames("region_", item.regionNames), PrefixedNames("country_", item.countryNames), k);
    Differ(k, "suggest", 0);
    Differ(k, "regionid", 0);
    SearchDataOther(item, suggest, k);
  }

  /** Each region name sits under "region_" + its language; no later field overwrites it. */
  lemma SearchDataRegionNames(item: GNItem, suggest: seq<string>, lang: string)
    requires lang in item.regionNames
    ensures "region_" + lang in item.SearchData(suggest)
    ensures item.SearchData(suggest)["region_" + lang] == JStr(item.regionNames[lang])
  {
    var k := "region_" + lang;
    PrefixedHit("region_", item.regionNames, lang);
    PrefixedMiss(k, "country_", item.countryNames, 0);
    assert k in item.NamedFields() && item.NamedFields()[k] == JStr(item.regionNames[lang]);
    Differ(k, "suggest", 0);
    Differ(k, "regionid", 6);
    SearchDataOther(item, suggest, k);
  }

  /** Each country name sits under "country_" + its language. */
  lemma SearchDataCountryNames(item: GNItem, suggest: seq<string>, lang: string)
    requires lang in item.countryNames
    ensures "country_" + lang in item.SearchData(suggest)
    ensures item.SearchData(suggest)["country_" + lang] == JStr(item.countryNames[lang])
  {
    var k := "country_" + lang;
    PrefixedHit("country_", item.countryNames, lang);
    assert k in item.NamedFields() && item.NamedFields()[k] == JStr(item.countryNames[lang]);
    Differ(k, "suggest", 0);
    Differ(k, "regionid", 0);
    SearchDataOther(item, suggest, k);
  }

  /** A key of the second of four merged maps that the last two lack keeps its value. */
  lemma MergeLookup<K, V>(a: map<K, V>, b: map<K, V>, c: map<K, V>, d: map<K, V>, k: K)
    requires k in b && k !in c && k !in d
    ensures k in a + b + c + d && (a + b + c + d)[k] == b[k]
  {
  }

  lemma Differ(a: string, b: string, i: nat)
    requires i < |a| && i < |b| && a[i] != b[i]
    ensures a != b
  {
  }

  /** The "suggest" field holds the suggestion list. */
  lemma SearchDataSuggest(item: GNItem, suggest: seq<string>)
    ensures item.SearchData(suggest)["suggest"] == JList(Strs(suggest))
  {
    Differ("suggest", "regionid", 0);
  }

  /** "regionid" is present exactly for cities, holding the region's id. */
  lemma SearchDataRegionId(item: GNItem, suggest: seq<string>)
    ensures "regionid" in item.SearchData(suggest) <==> item.itemType == "city"
    ensures item.itemType == "city" ==> item.SearchData(suggest)["regionid"] == JStr(item.regionid)
  {
    PrefixedMiss("regionid", "city_", item.cityNames, 0);
    PrefixedMiss("regionid", "region_", item.regionNames, 6);
    PrefixedMiss("regionid", "country_", item.countryNames, 0);
    Differ("regionid", "country_iso2", 0);
    Differ("regionid", "location", 0);
    Differ("regionid", "population", 0);
    Differ("regionid", "suggest", 0);
    Differ("regionid", "timezone", 0);
    assert "regionid" !in item.FixedFields();
    assert "regionid" !in item.NamedFields();
  }

  /** The population is written in decimal. */
  lemma SearchDataPopulation(item: GNItem, suggest: seq<string>)
    ensures item.SearchData(suggest)["population"] == JStr(IntToDecimal(item.population))
  {
    PrefixedMiss("population", "city_", item.cityNames, 0);
    PrefixedMiss("population", "region_", item.regionNames, 0);
    PrefixedMiss("population", "country_", item.countryNames, 0);
    Differ("population", "suggest", 0);
    Differ("population", "timezone", 0);
    Differ("population", "regionid", 0);
    assert item.FixedFields()["population"] == JStr(IntToDecimal(item.population));
    assert item.NamedFields()["population"] == JStr(IntToDecimal(item.population));
    SearchDataOther(item, suggest, "population");
  }

  /** The ISO code sits under "country_iso2" unless a country name in the language "iso2" replaced it. */
  lemma SearchDataIso2(item: GNItem, suggest: seq<string>)
    ensures item.SearchData(suggest)["country_iso2"] ==
              if "iso2" in item.countryNames then JStr(item.countryNames["iso2"]) else JStr(item.country)
  {
    var k := "country_iso2";
    PrefixedMiss(k, "city_", item.cityNames, 1);
    PrefixedMiss(k, "region_", item.regionNames, 0);
    Differ(k, "suggest", 0);
    Differ(k, "regionid", 0);
    assert k == "country_" + "iso2";
    if "iso2" in item.countryNames {
      PrefixedHit("country_", item.countryNames, "iso2");
    } else {
      PrefixedAbsent("country_", item.countryNames, "iso2");
      assert item.FixedFields()[k] == JStr(item.country);
    }
    assert k in item.NamedFields() && item.NamedFields()[k] ==
      if "iso2" in item.countryNames then JStr(item.countryNames["iso2"]) else JStr(item.country);
    SearchDataOther(item, suggest, k);
  }

  /** The body holds nothing but the fixed fields, "regionid" and the prefixed names. */
  lemma SearchDataKeys(item: GNItem, suggest: seq<string>, k: string)
    requires k in item.SearchData(suggest)
    requires k !in item.FixedFields() && k != "regionid"
    ensures Prefixed(k, "city_", item.cityNames) || Prefixed(k, "region_", item.regionNames)
            || Prefixed(k, "country_", item.countryNames)
  {
    if k in PrefixedNames("city_", item.cityNames) {
      PrefixedDomain("city_", item.cityNames, k);
    } else if k in PrefixedNames("region_", item.regionNames) {
      PrefixedDomain("region_", item.regionNames, k);
    } else {
      PrefixedDomain("country_", item.countryNames, k);
    }
  }

  /** `k` is `prefix` followed by a language of `names`. */
  predicate Prefixed(k: string, prefix: string, names: map<string, string>)
  {
    |prefix| <= |k| && k[..|prefix|] == prefix && k[|prefix|..] in names
  }
}
