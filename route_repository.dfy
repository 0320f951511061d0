/** `RouteRepository.generateRoute`: a route of random waypoints inside a
    fixed box around Moscow, one waypoint per full 15 minutes. The random
    draws are arbitrary choices within their ranges; the route id and the
    clock are parameters; the Firestore write is left out. */
module RouteRepository {
  import opened Wrappers
  import opened Text
  import opened Model

  /** The `moscowBounds` map; every key the generator reads is present. */
  datatype Bounds = Bounds(north: real, south: real, east: real, west: real)

  const MoscowBounds := Bounds(55.9578, 55.5741, 37.9465, 37.2824)

  const MinutesPerWaypoint: int := 15

  /** `placeTypes.random()` on an empty list. */
  const EmptyCollectionMessage: string := "NoSuchElementException"

  /** Kotlin's `Int` division for a positive divisor, which truncates toward
      zero (Dafny's `/` rounds down). */
  function TruncDiv(a: int, b: int): int
    requires b > 0
  {
    if a >= 0 then a / b else 0 - ((0 - a) / b)
  }

  /** `duration / 15`, the count handed to `repeat`. */
  function WaypointCount(duration: int): (n: int)
    ensures duration >= 0 ==> MinutesPerWaypoint * n <= duration < MinutesPerWaypoint * (n + 1)
    ensures duration < 0 ==> MinutesPerWaypoint * n >= duration > MinutesPerWaypoint * (n - 1)
    ensures n >= 1 <==> duration >= MinutesPerWaypoint
  {
    TruncDiv(duration, MinutesPerWaypoint)
  }

  /** How many times `repeat(n)` runs its body: none when `n <= 0`. */
  function Repetitions(n: int): nat {
    if n <= 0 then 0 else n
  }

  /** For negative durations Kotlin's quotient is not Dafny's: -1 minutes
      gives 0 waypoints, where rounding down would give -1. */
  lemma TruncationDiffersOnNegatives()
    ensures WaypointCount(-1) == 0 && -1 / MinutesPerWaypoint == -1
    ensures WaypointCount(-16) == -1 && -16 / MinutesPerWaypoint == -2
  {
  }

  /** The name of waypoint `i` (0-based). */
  function WaypointName(i: nat): string {
    "Waypoint " + NatToString(i + 1)
  }

  /** Waypoint names are distinct. */
  lemma WaypointNamesDistinct(i: nat, j: nat)
    requires i != j
    ensures WaypointName(i) != WaypointName(j)
  {
    var prefix := "Waypoint ";
    if WaypointName(i) == WaypointName(j) {
      assert NatToString(i + 1) == WaypointName(i)[|prefix|..];
      assert NatToString(j + 1) == WaypointName(j)[|prefix|..];
      NatToStringInjective(i + 1, j + 1);
    }
  }

  predicate HalfOpen(from: real, x: real, until: real) {
    from <= x < until
  }

  predicate InBounds(p: GeoPoint, bounds: Bounds) {
    HalfOpen(bounds.south, p.latitude, bounds.north) && HalfOpen(bounds.west, p.longitude, bounds.east)
  }

  /** What the source promises of waypoint `i` of a generated route. */
  predicate GeneratedWaypoint(w: Waypoint, i: nat, placeTypes: seq<string>, bounds: Bounds) {
    && InBounds(w.location, bounds)
    && w.name == WaypointName(i)
    && w.description == "" && w.photoUrl == ""
    && w.placeType in placeTypes
  }

  /** `generateWaypoints`: one waypoint per full 15 minutes, each at a
      uniformly drawn point of the half-open box, named by its position,
      of a type drawn from `placeTypes`; drawing from an empty `placeTypes`
      throws. */
  method GenerateWaypoints(duration: int, placeTypes: seq<string>, bounds: Bounds)
    returns (result: Result<seq<Waypoint>, string>)
    requires bounds.south < bounds.north && bounds.west < bounds.east
    ensures result.Failure? <==> placeTypes == [] && WaypointCount(duration) >= 1
    ensures result.Failure? ==> result.error == EmptyCollectionMessage
    ensures result.Success? ==>
              && |result.value| == Repetitions(WaypointCount(duration))
              && forall i :: 0 <= i < |result.value| ==> GeneratedWaypoint(result.value[i], i, placeTypes, bounds)
  {
    var waypoints: seq<Waypoint> := [];
    var numberOfWaypoints := TruncDiv(duration, MinutesPerWaypoint);
    var it := 0;
    while it < numberOfWaypoints
      invariant 0 <= it == |waypoints|
      invariant numberOfWaypoints >= 1 ==> it <= numberOfWaypoints
      invariant numberOfWaypoints < 1 ==> it == 0
      invariant it > 0 ==> placeTypes != []
      invariant forall i :: 0 <= i < it ==> GeneratedWaypoint(waypoints[i], i, placeTypes, bounds)
    {
      // Random.nextDouble(from, until) draws from [from, until)
      assert HalfOpen(bounds.south, bounds.south, bounds.north) && HalfOpen(bounds.west, bounds.west, bounds.east);
      var lat: real :| HalfOpen(bounds.south, lat, bounds.north);
      var lng: real :| HalfOpen(bounds.west, lng, bounds.east);
      if placeTypes == [] {
        return Failure(EmptyCollectionMessage);
      }
      assert placeTypes[0] in placeTypes;
      var placeType :| placeType in placeTypes;
      waypoints := waypoints + [Waypoint(GeoPoint(lat, lng), WaypointName(it), "", "", placeType)];
      it := it + 1;
    }
    return Success(waypoints);
  }

  /** `generateRoute`: the route around the generated waypoints. It keeps
      the start point, duration and place types it was given, is lit
      exactly at night, and its distance stays 0.0. */
  method GenerateRoute(startPoint: GeoPoint, duration: int, placeTypes: seq<string>, isNightTime: bool,
                       routeId: string, now: int)
    returns (result: Result<Route, string>)
    ensures result.Failure? <==> placeTypes == [] && duration >= MinutesPerWaypoint
    ensures result.Success? ==>
              var route := result.value;
              && route.id == routeId
              && route.startPoint == Some(startPoint)
              && route.duration == duration
              && route.placeTypes == placeTypes
              && route.isIlluminated == isNightTime
              && route.distance == 0.0
              && route.weatherCondition == ""
              && |route.waypoints| == Repetitions(WaypointCount(duration))
              && forall i :: 0 <= i < |route.waypoints| ==>
                   GeneratedWaypoint(route.waypoints[i], i, placeTypes, MoscowBounds)
  {
    var waypoints := GenerateWaypoints(duration, placeTypes, MoscowBounds);
    if waypoints.Failure? {
      return Failure(waypoints.error);
    }
    var route := Route(
      id := routeId,
      name := "",
      createdBy := "",
      startPoint := Some(startPoint),
      waypoints := waypoints.value,
      distance := 0.0,
      duration := duration,
      difficulty := "",
      rating := 0.0,
      numberOfRatings := 0,
      createdAt := Date(now),
      placeTypes := placeTypes,
      isIlluminated := isNightTime,
      weatherCondition := "");
    return Success(route);
  }
}
