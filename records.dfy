/**
 * The records the reindexer moves, as one closed variant, and the single conversion of a record
 * into a bulk index operation: index, type, decimal id, optional decimal parent and document.
 */
module Records {
  import opened Base
  import opened Strings
  import opened GeoNames
  import opened Users

  // ------------------------------------------------------------------ trips

  /** A row of `trips`. */
  datatype Trip = Trip(
    id: nat,
    ownerId: nat,
    destinationId: nat,
    latitude: Float,
    longitude: Float,
    arrivalDate: string,
    departureDate: string,
    description: string,
    maxTravelers: nat,
    acl: nat,
    open: nat,
    created: string,
    city: string,
    country: string,
    tripDays: nat)
  {
    function GetType(): string
    {
      "trip"
    }

    function GetIndex(): string
    {
      "trips"
    }

    function TableName(): string
    {
      "trips"
    }

    function GetId(): nat
    {
      id
    }

    function GetParent(): Option<nat>
    {
      None
    }

    /** The document: the columns under their own names, except that the coordinates become one location object, created_at is renamed created and open is left out. */
    function GetSearchData(): (body: map<string, Json>)
      ensures "created" in body && body["created"] == Column("created_at")
      ensures "location" in body && body["location"] == JObject(map["lat" := Column("latitude"), "lon" := Column("longitude")])
      ensures "open" !in body && "created_at" !in body
    {
      map[
        "id" := JNum(id),
        "owner_id" := JNum(ownerId),
        "destination_id" := JNum(destinationId),
        "location" := JObject(map["lat" := JFloat(latitude), "lon" := JFloat(longitude)]),
        "arrival_date" := JStr(arrivalDate),
        "departure_date" := JStr(departureDate),
        "description" := JStr(description),
        "max_travelers" := JNum(maxTravelers),
        "acl" := JNum(acl),
        "created" := JStr(created),
        "city" := JStr(city),
        "country" := JStr(country),
        "trip_days" := JNum(tripDays)]
    }

    /** The column values for a positional INSERT, in declaration order. */
    function GetValues(): (values: seq<Json>)
      ensures |values| == |TripColumns|
      ensures forall i :: 0 <= i < |values| ==> values[i] == Column(TripColumns[i])
    {
      [JNum(id), JNum(ownerId), JNum(destinationId), JFloat(latitude), JFloat(longitude),
       JStr(arrivalDate), JStr(departureDate), JStr(description), JNum(maxTravelers), JNum(acl),
       JNum(open), JStr(created), JStr(city), JStr(country), JNum(tripDays)]
    }

    /** A column's value by the column's name. */
    function Column(column: string): Json
    {
      match column
      case "id" => JNum(id)
      case "owner_id" => JNum(ownerId)
      case "destination_id" => JNum(destinationId)
      case "latitude" => JFloat(latitude)
      case "longitude" => JFloat(longitude)
      case "arrival_date" => JStr(arrivalDate)
      case "departure_date" => JStr(departureDate)
      case "description" => JStr(description)
      case "max_travelers" => JNum(maxTravelers)
      case "acl" => JNum(acl)
      case "open" => JNum(open)
      case "created_at" => JStr(created)
      case "city" => JStr(city)
      case "country" => JStr(country)
      case "trip_days" => JNum(tripDays)
      case _ => JNull
    }
  }

  const TripColumns: seq<string> :=
    ["id", "owner_id", "destination_id", "latitude", "longitude", "arrival_date",
     "departure_date", "description", "max_travelers", "acl", "open", "created_at", "city",
     "country", "trip_days"]

  /** The columns a trip document copies under the column's own name. */
  const CopiedColumns: seq<string> :=
    ["id", "owner_id", "destination_id", "arrival_date", "departure_date", "description",
     "max_travelers", "acl", "city", "country", "trip_days"]

  /**
   * The document and the row agree: every copied column has the row's value (created, location
   * and the left-out open are stated on GetSearchData).
   */
  lemma TripDocumentMatchesRow(t: Trip)
    ensures forall i :: 0 <= i < |CopiedColumns| ==>
      CopiedColumns[i] in t.GetSearchData()
      && t.GetSearchData()[CopiedColumns[i]] == t.Column(CopiedColumns[i])
  {
    var body := t.GetSearchData();
    forall i | 0 <= i < |CopiedColumns|
      ensures CopiedColumns[i] in body
      && body[CopiedColumns[i]] == t.Column(CopiedColumns[i])
    {
    }
  }

  /** The document holds nothing but the copied columns, created and location. */
  lemma TripDocumentKeys(t: Trip)
    ensures forall k :: k in t.GetSearchData() ==> k in CopiedColumns || k == "created" || k == "location"
  {
    forall k | k in t.GetSearchData() && k != "created" && k != "location"
      ensures k in CopiedColumns
    {
    }
  }

  // ------------------------------------------------------------------ prompts

  /** A row of `le_prompts`; the language column's JSON tag is "name". */
  datatype Prompt = Prompt(id: nat, uid: nat, language: string, data: string, created: string)
  {
    function GetId(): nat
    {
      id
    }

    function TableName(): string
    {
      "le_prompts"
    }

    /** Prepare does nothing to a prompt. */
    method Prepare() returns (p: Prompt)
      ensures p == this
    {
      p := this;
    }

    /**
     * The document has exactly the five fields; the language is under "language", not under
     * its JSON tag.
     */
    function GetSearchData(): (body: map<string, Json>)
      ensures body.Keys == {"id", "uid", "language", "data", "created"}
      ensures "name" !in body && body["language"] == JStr(language)
      ensures body["id"] == JNum(id) && body["uid"] == JNum(uid)
    {
      map[
        "id" := JNum(id),
        "uid" := JNum(uid),
        "language" := JStr(language),
        "data" := JStr(data),
        "created" := JStr(created)]
    }
  }

  // ------------------------------------------------------------------ fixed metadata of the older loader

  /** The index and type the older loader stamps on every record of a run. */
  datatype MetaData = MetaDataESUsers | MetaDataESGeoNames
  {
    function GetIndex(): string
    {
      if MetaDataESUsers? then "users" else "geonames"
    }

    function GetType(): string
    {
      if MetaDataESUsers? then "users" else "geonames"
    }
  }

  // ------------------------------------------------------------------ the geoname document

  function AlternateNameJson(a: GeoAlternateName): Json
  {
    JObject(map["language" := JStr(a.language), "name" := JStr(a.name), "is_preferred" := JBool(a.isPreferredName)])
  }

  function AlternateNamesJson(names: seq<GeoAlternateName>): (js: seq<Json>)
    ensures |js| == |names|
  {
    seq(|names|, i requires 0 <= i < |names| => AlternateNameJson(names[i]))
  }

  /**
   * The document the encoder makes of a geoname record (the modelled columns). The id's tag puts
   * the json key after a ";" instead of a space, so the encoder does not see it and writes the id
   * under the field name; the two alternate-name fields have no tag and keep theirs too.
   */
  function GeoNameBody(g: GeoName): (body: map<string, Json>)
    ensures "Geonameid" in body && body["Geonameid"] == JNum(g.geonameid)
    ensures "AlternativeNames" in body && body["AlternativeNames"] == JList(AlternateNamesJson(g.alternativeNames))
    ensures "alternatenames" !in body && "latitude" !in body && "longitude" !in body
  {
    map[
      "Geonameid" := JNum(g.geonameid),
      "name" := JStr(g.name),
      "asciiname" := JStr(g.asciiname),
      "fclass" := JStr(g.fclass),
      "country" := JStr(g.country),
      "admin1" := JStr(g.admin1),
      "population" := JNum(g.population),
      "timezone" := JStr(g.timezone),
      "AlternativeNamesAsString" := JStr(g.alternativeNamesAsString),
      "AlternativeNames" := JList(AlternateNamesJson(g.alternativeNames))]
  }

  // ------------------------------------------------------------------ the closed variant

  /** Every record the reindexer fetches or sends. */
  datatype Record =
    | GeoItem(item: GNItem)
    | Aggregate(aggregate: GNObjectAggregate)
    | UserRecord(user: User)
    | TripRecord(trip: Trip)
    | PromptRecord(prompt: Prompt)
    | GeoNameRecord(geoname: GeoName)
  {
    function GetId(): nat
    {
      match this
      case GeoItem(i) => i.GetId()
      case Aggregate(a) => a.GetId()
      case UserRecord(u) => u.GetId()
      case TripRecord(t) => t.GetId()
      case PromptRecord(p) => p.GetId()
      case GeoNameRecord(g) => g.GetId()
    }

    /** Whether the record names its own index, type and parent (prompts and geonames do not). */
    predicate HasOwnMeta()
    {
      !PromptRecord? && !GeoNameRecord?
    }

    function GetIndex(): string
      requires HasOwnMeta()
    {
      match this
      case GeoItem(i) => i.GetIndex()
      case Aggregate(a) => a.GetIndex()
      case UserRecord(u) => u.GetIndex()
      case TripRecord(t) => t.GetIndex()
    }

    function GetType(): string
      requires HasOwnMeta()
    {
      match this
      case GeoItem(i) => i.GetType()
      case Aggregate(a) => a.GetType()
      case UserRecord(u) => u.GetType()
      case TripRecord(t) => t.GetType()
    }

    function GetParent(): Option<nat>
      requires HasOwnMeta()
    {
      match this
      case GeoItem(i) => i.GetParent()
      case Aggregate(a) => a.GetParent()
      case UserRecord(u) => u.GetParent()
      case TripRecord(t) => t.GetParent()
    }

    /** The document, given the order the item's suggestions come out in (other records ignore it). */
    function Document(suggest: seq<string>): Json
    {
      match this
      case GeoItem(i) => JObject(i.SearchData(suggest))
      case Aggregate(a) => JObject(a.GetSearchData())
      case UserRecord(u) => JObject(UserBody(u))
      case TripRecord(t) => JObject(t.GetSearchData())
      case PromptRecord(p) => JObject(p.GetSearchData())
      case GeoNameRecord(g) => JObject(GeoNameBody(g))
    }
  }

  /** A list holding each of a set's members exactly once. */
  ghost predicate Enumerates(suggest: seq<string>, s: set<string>)
  {
    |suggest| == |s| && (forall x :: x in suggest <==> x in s)
  }

  /** An order the record's suggestions may come out in: any, for records without suggestions. */
  ghost predicate OrderFor(r: Record, order: seq<string>)
  {
    r.GeoItem? ==> Enumerates(order, r.item.suggestions)
  }

  // ------------------------------------------------------------------ bulk operations

  /** Where an operation's index and type come from: the record itself, or a run-wide metadata value. */
  datatype Source = OwnMeta | FixedMeta(meta: MetaData)

  predicate Convertible(r: Record, source: Source)
  {
    source.FixedMeta? || r.HasOwnMeta()
  }

  datatype Header = Header(index: string, typ: string, id: string, parent: Option<string>)

  /**
   * A bulk index request. Like the client's request, it holds the document value and renders it
   * only when the bulk is encoded: the record and, for an item, the order its suggestions took.
   */
  datatype Op = Op(header: Header, record: Record, order: seq<string>)
  {
    /** The JSON document the request carries. */
    function Body(): Json
    {
      record.Document(order)
    }
  }

  /**
   * The header of a record's index request. The id and the parent are written in base 10 and
   * read back to the record's numbers; a parent is set only for a record that has one and only
   * when the record supplies its own metadata.
   */
  function OpHeader(r: Record, source: Source): (h: Header)
    requires Convertible(r, source)
    ensures source.FixedMeta? ==> h.index == source.meta.GetIndex() && h.typ == source.meta.GetType()
    ensures source.OwnMeta? ==> h.index == r.GetIndex() && h.typ == r.GetType()
    ensures IsDigits(h.id) && DecimalValue(h.id) == r.GetId()
    ensures h.parent.Some? <==> source.OwnMeta? && r.GetParent().Some?
    ensures h.parent.Some? ==> IsDigits(h.parent.value) && DecimalValue(h.parent.value) == r.GetParent().value
  {
    DecimalRoundTrip(r.GetId());
    var parent :=
      if source.OwnMeta? && r.GetParent().Some? then Some(NatToDecimal(r.GetParent().value)) else None;
    if parent.Some? then
      DecimalRoundTrip(r.GetParent().value);
      match source
      case OwnMeta => Header(r.GetIndex(), r.GetType(), NatToDecimal(r.GetId()), parent)
      case FixedMeta(m) => Header(m.GetIndex(), m.GetType(), NatToDecimal(r.GetId()), parent)
    else
      match source
      case OwnMeta => Header(r.GetIndex(), r.GetType(), NatToDecimal(r.GetId()), parent)
      case FixedMeta(m) => Header(m.GetIndex(), m.GetType(), NatToDecimal(r.GetId()), parent)
  }

  /** The index request made of a record, given the order its suggestions come out in. */
  function OpOf(r: Record, source: Source, order: seq<string>): Op
    requires Convertible(r, source)
  {
    Op(OpHeader(r, source), r, order)
  }

  /**
   * One index request: the header and the record's document, built by the record's own
   * GetSearchData. The order of an item's suggestions is whatever Go's map iteration gives; it
   * is returned alongside.
   */
  method Convert(r: Record, source: Source) returns (op: Op, ghost order: seq<string>)
    requires Convertible(r, source)
    ensures OrderFor(r, order) && op == OpOf(r, source, order)
    ensures op.Body() == r.Document(order)
  {
    match r {
      case GeoItem(i) =>
        var data, suggest := i.GetSearchData();
        assert Enumerates(suggest, i.suggestions);
        assert JObject(data) == r.Document(suggest);
        order := suggest;
        op := Op(OpHeader(r, source), r, suggest);
      case _ =>
        order := [];
        op := Op(OpHeader(r, source), r, []);
    }
  }

  /** Two records with different ids never share an operation id. */
  lemma OpIdsDistinct(r: Record, s: Record, source: Source)
    requires Convertible(r, source) && Convertible(s, source)
    ensures OpHeader(r, source).id == OpHeader(s, source).id <==> r.GetId() == s.GetId()
  {
  }

  /** An aggregate operation carries a parent exactly when it is typed city. */
  lemma AggregateParentIsCity(a: GNObjectAggregate)
    ensures OpHeader(Aggregate(a), OwnMeta).parent.Some? <==> OpHeader(Aggregate(a), OwnMeta).typ == "city"
    ensures OpHeader(Aggregate(a), OwnMeta).index == "geonames"
  {
  }
}
