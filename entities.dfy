/** The Room records of the offline store and the Room type converters for
    timestamps and "lat,lon" text. */
module Entities {
  import opened Wrappers
  import opened Text
  import opened Model

  datatype LocalRoute = LocalRoute(
    id: string,
    name: string,
    createdBy: string,
    startLatitude: real,
    startLongitude: real,
    distance: real,
    duration: int,
    difficulty: string,
    rating: real,
    numberOfRatings: int,
    createdAt: Date,
    placeTypes: seq<string>,
    isIlluminated: bool,
    weatherCondition: string,
    isDownloaded: bool,
    lastSyncTime: Date)

  /** A waypoint row; `id` is 0 until the store assigns one. */
  datatype LocalWaypoint = LocalWaypoint(
    id: int,
    routeId: string,
    latitude: real,
    longitude: real,
    name: string,
    description: string,
    photoUrl: string,
    placeType: string)

  // ---------------------------------------------------------------------------
  // Timestamp converters

  /** `fromTimestamp`: null stays null, a number becomes the date at it. */
  function FromTimestamp(value: Option<int>): (r: Option<Date>)
    ensures r.None? <==> value.None?
    ensures r.Some? ==> r.value.time == value.value
  {
    match value
    case None => None
    case Some(t) => Some(Date(t))
  }

  /** `dateToTimestamp`: null stays null, a date becomes its milliseconds. */
  function DateToTimestamp(date: Option<Date>): (r: Option<int>)
    ensures r.None? <==> date.None?
    ensures r.Some? ==> r.value == date.value.time
  {
    match date
    case None => None
    case Some(d) => Some(d.time)
  }

  /** The timestamp converters are inverse to each other, both ways. */
  lemma TimestampRoundTrip(value: Option<int>, date: Option<Date>)
    ensures DateToTimestamp(FromTimestamp(value)) == value
    ensures FromTimestamp(DateToTimestamp(date)) == date
  {
  }

  // ---------------------------------------------------------------------------
  // GeoPoint converters

  /** `Double.toString`, which is not modelled: a parameter. */
  type ShowDouble = real -> string

  /** `String.toDouble`; `None` is its `NumberFormatException`. */
  type ParseDouble = string -> Option<real>

  /** What the geo converters rely on: a rendered number has no comma and
      parses back to itself. */
  ghost predicate NumberTextRoundTrips(show: ShowDouble, parse: ParseDouble) {
    forall x :: ',' !in show(x) && parse(show(x)) == Some(x)
  }

  /** `fromGeoPoint`: null stays null; a point is rendered "lat,lon". */
  function FromGeoPoint(geoPoint: Option<GeoPoint>, show: ShowDouble): (r: Option<string>)
    ensures r.None? <==> geoPoint.None?
    ensures r.Some? ==> exists a, b :: r.value == a + "," + b && a == show(geoPoint.value.latitude)
                                      && b == show(geoPoint.value.longitude)
  {
    match geoPoint
    case None => None
    case Some(g) => Some(show(g.latitude) + "," + show(g.longitude))
  }

  /** `toGeoPoint`: null stays null, text that does not split into exactly two
      pieces at ',' gives null, and two pieces of which one is not a number
      throw (`Failure`). */
  function ToGeoPoint(value: Option<string>, parse: ParseDouble): (r: Result<Option<GeoPoint>, string>)
    ensures value.None? ==> r == Success(None)
    ensures value.Some? && Count(value.value, ',') != 1 ==> r == Success(None)
    ensures r.Failure? <==> value.Some? && Count(value.value, ',') == 1 &&
                            var parts := Split(value.value, ',');
                            parse(parts[0]).None? || parse(parts[1]).None?
    ensures (value.Some? && Count(value.value, ',') == 1 &&
             var parts := Split(value.value, ',');
             parse(parts[0]).Some? && parse(parts[1]).Some?) ==> r.Success? && r.value.Some?
    ensures r.Success? && r.value.Some? ==>
              value.Some? && var parts := Split(value.value, ',');
              |parts| == 2 && parse(parts[0]) == Some(r.value.value.latitude)
                           && parse(parts[1]) == Some(r.value.value.longitude)
  {
    match value
    case None => Success(None)
    case Some(text) =>
      var parts := Split(text, ',');
      if |parts| == 2 then
        match (parse(parts[0]), parse(parts[1]))
        case (Some(lat), Some(lon)) => Success(Some(GeoPoint(lat, lon)))
        case _ => Failure("NumberFormatException")
      else Success(None)
  }

  /** A rendered point holds exactly one comma. */
  lemma GeoTextHasOneComma(g: GeoPoint, show: ShowDouble)
    requires forall x :: ',' !in show(x)
    ensures Count(FromGeoPoint(Some(g), show).value, ',') == 1
  {
    var a, b := show(g.latitude), show(g.longitude);
    CountAppend(a + ",", b, ',');
    CountAppend(a, ",", ',');
    CountAbsent(a, ',');
    CountAbsent(b, ',');
  }

  /** The geo converters are inverse: rendering and reading back gives the
      same point (and null for null), given that numbers round-trip as text. */
  lemma GeoPointRoundTrip(geoPoint: Option<GeoPoint>, show: ShowDouble, parse: ParseDouble)
    requires NumberTextRoundTrips(show, parse)
    ensures ToGeoPoint(FromGeoPoint(geoPoint, show), parse) == Success(geoPoint)
  {
    if geoPoint.Some? {
      var g := geoPoint.value;
      var a, b := show(g.latitude), show(g.longitude);
      assert a + "," + b == a + [','] + b;
      SplitJoined(a, ',', b);
    }
  }

  /** Text of the form "x,y" where one side is not a number throws rather than
      giving null. */
  lemma NonNumericPieceThrows(a: string, b: string, parse: ParseDouble)
    requires ',' !in a && ',' !in b
    requires parse(a).None? || parse(b).None?
    ensures ToGeoPoint(Some(a + "," + b), parse).Failure?
  {
    assert a + "," + b == a + [','] + b;
    SplitJoined(a, ',', b);
  }

  /** Texts with no comma or more than one give null. */
  lemma WrongPieceCountGivesNull(parse: ParseDouble)
    ensures ToGeoPoint(Some(""), parse) == Success(None)
    ensures ToGeoPoint(Some("1"), parse) == Success(None)
    ensures ToGeoPoint(Some("1,2,3"), parse) == Success(None)
  {
    assert Count("", ',') == 0;
    assert Count("1", ',') == 0;
    assert Count("1,2,3", ',') == 2;
  }
}
