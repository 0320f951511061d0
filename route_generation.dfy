/** The route generator of `RouteGenerationService`: a weather gate, a walking
    budget of `duration * 83.0` metres, a night flag from the Moscow local
    hour, a category and night-safety filter over a fixed catalogue of ten
    points of interest, and a greedy walk to the nearest candidate while the
    leg fits the remaining budget.

    The haversine distance is a parameter `dist` of which only two facts are
    assumed (`DistanceLaws`): it is never negative and a point is at distance
    0 from itself. The candidate pool is never shrunk, so once a leg is
    accepted with budget to spare the walk re-appends a point at distance 0
    for ever; the walk is therefore modelled with `fuel` and reports when the
    fuel runs out (`Walk(...).outOfFuel`, `Generation.Diverged`). */
module RouteGeneration {
  import opened Wrappers
  import opened Text
  import opened Model

  /** Average walking speed in metres per minute. */
  const AvgWalkingSpeed: real := 83.0

  const UnsuitableMessage: string := "Weather conditions are not suitable for walking"
  const DefaultFailureMessage: string := "Failed to generate route"

  /** A catalogue entry (`type` is `poiType` here). */
  datatype POI = POI(name: string, lat: real, lon: real, poiType: string)

  const MoscowLandmarks: seq<POI> := [
    POI("Red Square", 55.7539, 37.6208, "landmark"),
    POI("Gorky Park", 55.7298, 37.6012, "park"),
    POI("VDNKh", 55.8263, 37.6377, "park"),
    POI("Arbat Street", 55.7495, 37.5946, "street"),
    POI("Tretyakov Gallery", 55.7415, 37.6208, "museum"),
    POI("Moscow State University", 55.7025, 37.5302, "landmark"),
    POI("Zaryadye Park", 55.7514, 37.6278, "park"),
    POI("Tsaritsyno", 55.6156, 37.6868, "park"),
    POI("Kolomenskoye", 55.6698, 37.6698, "park"),
    POI("Patriarch Ponds", 55.7631, 37.5931, "park")
  ]

  /** The great-circle distance in metres, abstracted. */
  type Distance = (GeoPoint, GeoPoint) -> real

  /** The two facts the haversine formula guarantees: a distance is never
      negative, and with equal points the formula gives 0. */
  ghost predicate DistanceLaws(dist: Distance) {
    && (forall p, q :: dist(p, q) >= 0.0)
    && (forall p :: dist(p, p) == 0.0)
  }

  /** Among the locations of `pool`, points at distance 0 are equal (true of
      the haversine distance on the catalogue's points; used only to name
      WHICH point is repeated). */
  ghost predicate SeparatesPoints(dist: Distance, pool: seq<POI>) {
    forall p, q :: p in pool && q in pool && dist(Location(p), Location(q)) == 0.0 ==> Location(p) == Location(q)
  }

  function Location(poi: POI): GeoPoint {
    GeoPoint(poi.lat, poi.lon)
  }

  /** The waypoint a visited POI becomes. */
  function ToWaypoint(poi: POI): (w: Waypoint)
    ensures w.location == Location(poi) && w.name == poi.name && w.placeType == poi.poiType
    ensures w.description == "" && w.photoUrl == ""
  {
    Waypoint(Location(poi), poi.name, "", "", poi.poiType)
  }

  // ---------------------------------------------------------------------------
  // Decision rules

  /** Too cold, too hot, or a condition that is exactly one of three words
      once lower-cased. */
  function IsWeatherSuitableForWalking(w: WeatherInfo): (r: bool)
    ensures r <==> && -15.0 <= w.temperature <= 35.0
                   && Lowercase(w.condition) != "thunderstorm"
                   && Lowercase(w.condition) != "snow"
                   && Lowercase(w.condition) != "rain"
  {
    if w.temperature < -15.0 then false
    else if w.temperature > 35.0 then false
    else if Lowercase(w.condition) in ["thunderstorm", "snow", "rain"] then false
    else true
  }

  /** Night is every local hour outside 6..21. */
  function IsNightTime(localHour: int): (r: bool)
    ensures r <==> localHour < 6 || localHour > 21
  {
    !(6 <= localHour <= 21)
  }

  /** Parks and forests are unsafe at night. */
  function IsLocationSafeAtNight(poi: POI): (r: bool)
    ensures r <==> poi.poiType != "park" && poi.poiType != "forest"
  {
    poi.poiType !in ["park", "forest"]
  }

  /** The condition of the catalogue filter. */
  predicate Admissible(poi: POI, preferred: seq<string>, isNight: bool) {
    (|preferred| == 0 || poi.poiType in preferred) && (!isNight || IsLocationSafeAtNight(poi))
  }

  /** The catalogue entries, in catalogue order, that the filter keeps. */
  function AvailablePois(pois: seq<POI>, preferred: seq<string>, isNight: bool): (r: seq<POI>)
    ensures |r| <= |pois|
    ensures forall p :: p in r <==> p in pois && Admissible(p, preferred, isNight)
    decreases |pois|
  {
    if pois == [] then []
    else
      var rest := AvailablePois(pois[1..], preferred, isNight);
      if Admissible(pois[0], preferred, isNight) then [pois[0]] + rest else rest
  }

  /** `x` stands before `y` in `pois`. */
  ghost predicate StandsBefore(pois: seq<POI>, x: POI, y: POI) {
    exists a, b :: 0 <= a < b < |pois| && pois[a] == x && pois[b] == y
  }

  /** Every two entries of `r` stand in `pois` in the order they have in `r`. */
  ghost predicate KeepsOrder(pois: seq<POI>, r: seq<POI>) {
    forall i, j :: 0 <= i < j < |r| ==> StandsBefore(pois, r[i], r[j])
  }

  /** The filter keeps catalogue order: of two pool entries, the earlier one
      stands earlier in the catalogue. */
  lemma {:induction false} AvailablePoisInOrder(pois: seq<POI>, preferred: seq<string>, isNight: bool)
    ensures KeepsOrder(pois, AvailablePois(pois, preferred, isNight))
    decreases |pois|
  {
    if pois != [] {
      AvailablePoisInOrder(pois[1..], preferred, isNight);
      KeepsOrderStep(pois, AvailablePois(pois[1..], preferred, isNight), Admissible(pois[0], preferred, isNight));
    }
  }

  /** One step of the filter: keeping or dropping the head keeps the order
      the tail's pool has. */
  lemma KeepsOrderStep(pois: seq<POI>, rest: seq<POI>, keep: bool)
    requires pois != [] && KeepsOrder(pois[1..], rest) && forall p :: p in rest ==> p in pois[1..]
    ensures KeepsOrder(pois, if keep then [pois[0]] + rest else rest)
  {
    var tail := pois[1..];
    var r := if keep then [pois[0]] + rest else rest;
    forall i, j | 0 <= i < j < |r|
      ensures StandsBefore(pois, r[i], r[j])
    {
      var i', j' := if keep then i - 1 else i, if keep then j - 1 else j;
      assert r[j] == rest[j'];
      if keep && i == 0 {
        assert rest[j'] in tail;
        var m :| 0 <= m < |tail| && tail[m] == rest[j'];
        assert pois[0] == r[0] && pois[m + 1] == r[j];
      } else {
        assert r[i] == rest[i'] && 0 <= i' < j' < |rest|;
        assert StandsBefore(tail, rest[i'], rest[j']);
        var a, b :| 0 <= a < b < |tail| && tail[a] == rest[i'] && tail[b] == rest[j'];
        assert pois[a + 1] == r[i] && pois[b + 1] == r[j];
      }
    }
  }

  // ---------------------------------------------------------------------------
  // Nearest candidate (`minByOrNull`)

  /** The index `minByOrNull` settles on among the first `n` entries: a
      minimal distance, replaced only by a strictly smaller one, so ties go to
      the earliest entry. */
  function NearestIndex(pool: seq<POI>, current: GeoPoint, dist: Distance, n: nat): (k: nat)
    requires 0 < n <= |pool|
    ensures k < n
    ensures forall j :: 0 <= j < n ==> dist(current, Location(pool[k])) <= dist(current, Location(pool[j]))
    ensures forall j :: 0 <= j < k ==> dist(current, Location(pool[j])) > dist(current, Location(pool[k]))
    decreases n
  {
    if n == 1 then 0
    else
      var best := NearestIndex(pool, current, dist, n - 1);
      if dist(current, Location(pool[best])) > dist(current, Location(pool[n - 1])) then n - 1 else best
  }

  /** `findNextPOI`: the nearest candidate, ties to the earliest. `None` is
      the `pois.random()` fallback on an empty list, which throws; the walk
      never calls it with an empty pool. */
  function FindNextPoi(current: GeoPoint, pois: seq<POI>, dist: Distance): (r: Option<POI>)
    ensures r.None? <==> |pois| == 0
    ensures r.Some? ==> r.value in pois
    ensures r.Some? ==> forall q :: q in pois ==> dist(current, Location(r.value)) <= dist(current, Location(q))
    ensures r.Some? ==> exists k :: 0 <= k < |pois| && pois[k] == r.value &&
                          forall j :: 0 <= j < k ==> dist(current, Location(pois[j])) > dist(current, Location(pois[k]))
  {
    if |pois| == 0 then None
    else
      var k := NearestIndex(pois, current, dist, |pois|);
      Some(pois[k])
  }

  // ---------------------------------------------------------------------------
  // The walk

  /** What the loop has produced: the accepted waypoints, the budget left, and
      whether the loop condition still held when the fuel ran out. */
  datatype WalkResult = WalkResult(legs: seq<Waypoint>, remaining: real, outOfFuel: bool)

  /** The loop of `generateWaypoints` from a given state, for at most `fuel`
      iterations. */
  function Walk(pool: seq<POI>, current: GeoPoint, remaining: real, dist: Distance, fuel: nat): WalkResult
    decreases fuel
  {
    if !(remaining > 0.0 && |pool| > 0) then WalkResult([], remaining, false)
    else if fuel == 0 then WalkResult([], remaining, true)
    else
      var next := pool[NearestIndex(pool, current, dist, |pool|)];
      var d := dist(current, Location(next));
      if d <= remaining then
        var rest := Walk(pool, Location(next), remaining - d, dist, fuel - 1);
        WalkResult([ToWaypoint(next)] + rest.legs, rest.remaining, rest.outOfFuel)
      else WalkResult([], remaining, false)
  }

  /** Length of the path `from -> ws[0] -> ... -> ws[|ws|-1]`. */
  function PathLength(from: GeoPoint, ws: seq<Waypoint>, dist: Distance): real
    decreases |ws|
  {
    if ws == [] then 0.0 else dist(from, ws[0].location) + PathLength(ws[0].location, ws[1..], dist)
  }

  function Repeat(w: Waypoint, n: nat): (r: seq<Waypoint>)
    ensures |r| == n && forall i :: 0 <= i < n ==> r[i] == w
  {
    seq(n, _ => w)
  }

  ghost predicate DistinctLocations(pool: seq<POI>) {
    forall i, j :: 0 <= i < j < |pool| ==> Location(pool[i]) != Location(pool[j])
  }

  /** `generateWaypoints`: filter the catalogue, then walk. `diverged` says the
      loop was still running when the fuel ran out. */
  method GenerateWaypoints(startPoint: GeoPoint, maxDistance: real, preferred: seq<string>,
                           isNight: bool, dist: Distance, fuel: nat)
    returns (waypoints: seq<Waypoint>, diverged: bool)
    ensures var w := Walk(AvailablePois(MoscowLandmarks, preferred, isNight), startPoint, maxDistance, dist, fuel);
            waypoints == w.legs && diverged == w.outOfFuel
  {
    var availablePois := AvailablePois(MoscowLandmarks, preferred, isNight);
    waypoints, diverged := WalkPool(availablePois, startPoint, maxDistance, dist, fuel);
  }

  /** The `while` loop of `generateWaypoints` over a filtered pool. */
  method WalkPool(pool: seq<POI>, startPoint: GeoPoint, maxDistance: real, dist: Distance, fuel: nat)
    returns (waypoints: seq<Waypoint>, diverged: bool)
    ensures var w := Walk(pool, startPoint, maxDistance, dist, fuel);
            waypoints == w.legs && diverged == w.outOfFuel
  {
    waypoints := [];
    var remaining := maxDistance;
    var current := startPoint;
    var left: nat := fuel;
    diverged := false;
    ghost var whole := Walk(pool, startPoint, maxDistance, dist, fuel);
    while remaining > 0.0 && |pool| > 0
      invariant !diverged
      invariant var w := Walk(pool, current, remaining, dist, left);
                whole == WalkResult(waypoints + w.legs, w.remaining, w.outOfFuel)
      decreases left
    {
      if left == 0 {
        diverged := true;
        break;
      }
      var next := FindNextPoi(current, pool, dist).value;
      assert next == pool[NearestIndex(pool, current, dist, |pool|)];
      var distance := dist(current, Location(next));
      WalkStep(pool, current, remaining, dist, left);
      if distance <= remaining {
        ghost var rest := Walk(pool, Location(next), remaining - distance, dist, left - 1);
        assert waypoints + ([ToWaypoint(next)] + rest.legs) == (waypoints + [ToWaypoint(next)]) + rest.legs;
        waypoints := waypoints + [ToWaypoint(next)];
        current := Location(next);
        remaining := remaining - distance;
        left := left - 1;
      } else {
        break;
      }
    }
    assert waypoints + [] == waypoints;
  }

  /** One iteration of the walk, unfolded. */
  lemma WalkStep(pool: seq<POI>, current: GeoPoint, remaining: real, dist: Distance, fuel: nat)
    requires remaining > 0.0 && |pool| > 0 && fuel > 0
    ensures var next := pool[NearestIndex(pool, current, dist, |pool|)];
            var d := dist(current, Location(next));
            var rest := Walk(pool, Location(next), remaining - d, dist, fuel - 1);
            Walk(pool, current, remaining, dist, fuel)
              == if d <= remaining then WalkResult([ToWaypoint(next)] + rest.legs, rest.remaining, rest.outOfFuel)
                 else WalkResult([], remaining, false)
  {
  }

  /** `calculateTotalDistance`: the legs summed from the start point. */
  method CalculateTotalDistance(startPoint: GeoPoint, waypoints: seq<Waypoint>, dist: Distance)
    returns (total: real)
    ensures total == PathLength(startPoint, waypoints, dist)
  {
    total := 0.0;
    var previous := startPoint;
    var i := 0;
    while i < |waypoints|
      invariant 0 <= i <= |waypoints|
      invariant total + PathLength(previous, waypoints[i..], dist) == PathLength(startPoint, waypoints, dist)
    {
      assert waypoints[i..][1..] == waypoints[i + 1..];
      total := total + dist(previous, waypoints[i].location);
      previous := waypoints[i].location;
      i := i + 1;
    }
  }

  // ---------------------------------------------------------------------------
  // Properties of the walk

  /** Every accepted waypoint is a pool entry turned into a waypoint. */
  lemma {:induction false} WalkLegsFromPool(pool: seq<POI>, current: GeoPoint, remaining: real, dist: Distance, fuel: nat)
    ensures forall w :: w in Walk(pool, current, remaining, dist, fuel).legs ==>
              exists p :: p in pool && w == ToWaypoint(p)
    decreases fuel
  {
    if remaining > 0.0 && |pool| > 0 && fuel > 0 {
      var next := pool[NearestIndex(pool, current, dist, |pool|)];
      var d := dist(current, Location(next));
      if d <= remaining {
        WalkLegsFromPool(pool, Location(next), remaining - d, dist, fuel - 1);
      }
    }
  }

  /** Budget accounting: what is left plus the length of the accepted path is
      the starting budget, and a non-negative budget never goes negative. A
      non-positive budget accepts nothing. */
  lemma {:induction false} WalkBudget(pool: seq<POI>, current: GeoPoint, budget: real, dist: Distance, fuel: nat)
    ensures var r := Walk(pool, current, budget, dist, fuel);
            r.remaining + PathLength(current, r.legs, dist) == budget
    ensures budget >= 0.0 ==> Walk(pool, current, budget, dist, fuel).remaining >= 0.0
    ensures budget <= 0.0 ==> Walk(pool, current, budget, dist, fuel) == WalkResult([], budget, false)
    decreases fuel
  {
    if budget > 0.0 && |pool| > 0 && fuel > 0 {
      var next := pool[NearestIndex(pool, current, dist, |pool|)];
      var d := dist(current, Location(next));
      if d <= budget {
        var rest := Walk(pool, Location(next), budget - d, dist, fuel - 1);
        WalkBudget(pool, Location(next), budget - d, dist, fuel - 1);
        var legs := [ToWaypoint(next)] + rest.legs;
        assert legs[1..] == rest.legs;
        assert PathLength(current, legs, dist) == d + PathLength(Location(next), rest.legs, dist);
      }
    }
  }

  /** A path is never negative. */
  lemma {:induction false} PathLengthNonNegative(from: GeoPoint, ws: seq<Waypoint>, dist: Distance)
    requires DistanceLaws(dist)
    ensures PathLength(from, ws, dist) >= 0.0
    decreases |ws|
  {
    if ws != [] {
      PathLengthNonNegative(ws[0].location, ws[1..], dist);
    }
  }

  /** Standing on a pool entry with budget left, the walk never stops: every
      further step takes a leg of length 0, leaves the budget unchanged, and
      the fuel always runs out. */
  lemma {:induction false} WalkNeverStopsOnPoolEntry(pool: seq<POI>, k: nat, remaining: real, dist: Distance, fuel: nat)
    requires DistanceLaws(dist)
    requires k < |pool| && remaining > 0.0
    ensures var r := Walk(pool, Location(pool[k]), remaining, dist, fuel);
            && r.outOfFuel
            && r.remaining == remaining
            && |r.legs| == fuel
            && PathLength(Location(pool[k]), r.legs, dist) == 0.0
    decreases fuel
  {
    if fuel > 0 {
      var c := Location(pool[k]);
      var i := NearestIndex(pool, c, dist, |pool|);
      var next := pool[i];
      assert dist(c, Location(next)) <= dist(c, c) == 0.0;
      assert dist(c, Location(next)) == 0.0;
      WalkNeverStopsOnPoolEntry(pool, i, remaining, dist, fuel - 1);
      var rest := Walk(pool, Location(next), remaining, dist, fuel - 1);
      var legs := [ToWaypoint(next)] + rest.legs;
      assert legs[1..] == rest.legs;
    }
  }

  /** With a distance that separates points and a pool whose locations are
      distinct, the point repeated is the very entry the walk stands on. */
  lemma {:induction false} WalkRepeatsPoolEntry(pool: seq<POI>, k: nat, remaining: real, dist: Distance, fuel: nat)
    requires DistanceLaws(dist) && SeparatesPoints(dist, pool) && DistinctLocations(pool)
    requires k < |pool| && remaining > 0.0
    ensures Walk(pool, Location(pool[k]), remaining, dist, fuel).legs == Repeat(ToWaypoint(pool[k]), fuel)
    decreases fuel
  {
    if fuel > 0 {
      var c := Location(pool[k]);
      var i := NearestIndex(pool, c, dist, |pool|);
      assert dist(c, Location(pool[i])) <= dist(c, c) == 0.0;
      assert pool[k] in pool && pool[i] in pool;
      assert Location(pool[i]) == c;
      assert i == k;
      WalkRepeatsPoolEntry(pool, k, remaining, dist, fuel - 1);
      assert [ToWaypoint(pool[k])] + Repeat(ToWaypoint(pool[k]), fuel - 1) == Repeat(ToWaypoint(pool[k]), fuel);
    }
  }

  /** The length of the first leg the walk looks at. */
  function FirstLeg(pool: seq<POI>, start: GeoPoint, dist: Distance): real
    requires |pool| > 0
  {
    dist(start, Location(pool[NearestIndex(pool, start, dist, |pool|)]))
  }

  /** The loop ends (given at least one iteration of fuel) exactly when the
      pool is empty, the budget is not positive, or the first leg is at least
      the whole budget; in every other case it never ends. */
  lemma WalkStopsIff(pool: seq<POI>, start: GeoPoint, budget: real, dist: Distance, fuel: nat)
    requires DistanceLaws(dist) && fuel >= 1
    ensures !Walk(pool, start, budget, dist, fuel).outOfFuel <==>
            (|pool| == 0 || budget <= 0.0 || FirstLeg(pool, start, dist) >= budget)
  {
    if |pool| > 0 && budget > 0.0 {
      var i := NearestIndex(pool, start, dist, |pool|);
      var d := FirstLeg(pool, start, dist);
      if d < budget {
        WalkNeverStopsOnPoolEntry(pool, i, budget - d, dist, fuel - 1);
      } else if d == budget {
        assert Walk(pool, Location(pool[i]), 0.0, dist, fuel - 1).outOfFuel == false;
      }
    }
  }

  /** The catalogue position of a latitude (every entry has its own). */
  function LatitudeRank(lat: real): int {
    if lat == 55.7539 then 0 else if lat == 55.7298 then 1 else if lat == 55.8263 then 2
    else if lat == 55.7495 then 3 else if lat == 55.7415 then 4 else if lat == 55.7025 then 5
    else if lat == 55.7514 then 6 else if lat == 55.6156 then 7 else if lat == 55.6698 then 8
    else if lat == 55.7631 then 9 else -1
  }

  /** Every entry of the catalogue stands at its own location. */
  lemma CatalogueLocationsDistinct()
    ensures DistinctLocations(MoscowLandmarks)
  {
    var c := MoscowLandmarks;
    forall i | 0 <= i < |c| ensures LatitudeRank(c[i].lat) == i {
      if i < 5 {
        assert i == 0 || i == 1 || i == 2 || i == 3 || i == 4;
      } else {
        assert i == 5 || i == 6 || i == 7 || i == 8 || i == 9;
      }
    }
    forall i, j | 0 <= i < j < |c| ensures Location(c[i]) != Location(c[j]) {
      assert LatitudeRank(c[i].lat) != LatitudeRank(c[j].lat);
    }
  }

  /** Filtering keeps locations distinct. */
  lemma {:induction false} AvailablePoisDistinct(pois: seq<POI>, preferred: seq<string>, isNight: bool)
    requires DistinctLocations(pois)
    ensures DistinctLocations(AvailablePois(pois, preferred, isNight))
    decreases |pois|
  {
    if pois != [] {
      var rest := AvailablePois(pois[1..], preferred, isNight);
      assert DistinctLocations(pois[1..]) by {
        forall i, j | 0 <= i < j < |pois[1..]| ensures Location(pois[1..][i]) != Location(pois[1..][j]) {
          assert pois[1..][i] == pois[i + 1] && pois[1..][j] == pois[j + 1];
        }
      }
      AvailablePoisDistinct(pois[1..], preferred, isNight);
      if Admissible(pois[0], preferred, isNight) {
        var r := [pois[0]] + rest;
        forall i, j | 0 <= i < j < |r| ensures Location(r[i]) != Location(r[j]) {
          if i == 0 {
            assert r[j] in pois[1..];
            var m :| 0 <= m < |pois[1..]| && pois[1..][m] == r[j];
            assert pois[m + 1] == r[j];
          } else {
            assert r[i] == rest[i - 1] && r[j] == rest[j - 1];
          }
        }
      }
    }
  }

  // ---------------------------------------------------------------------------
  // generateRoute

  /** What the weather lookup did: it answered, or it threw an exception with
      a possibly missing message. */
  datatype WeatherAnswer = Answered(result: WeatherResult) | Threw(message: Option<string>)

  datatype RouteGenerationResult = Success(route: Route) | Error(message: string)

  /** A call to `generateRoute` either returns, or is still looping when the
      fuel runs out (the source never returns then). */
  datatype Generation = Returned(result: RouteGenerationResult) | Diverged

  /** Whether the weather gate lets generation go ahead: an error answer is
      ignored, a successful one must be suitable. */
  predicate WeatherLetsThrough(answer: WeatherResult) {
    answer.WeatherError? || IsWeatherSuitableForWalking(answer.info)
  }

  /** The walking budget of a duration in minutes. */
  function Budget(duration: int): real {
    duration as real * AvgWalkingSpeed
  }

  /** `generateRoute`. The Moscow local hour, the weather answer, the fresh id
      and the clock reading are inputs. */
  method GenerateRoute(startPoint: GeoPoint, duration: int, preferred: seq<string>, localHour: int,
                       weather: WeatherAnswer, dist: Distance, routeId: string, now: int, fuel: nat)
    returns (outcome: Generation)
    ensures weather.Threw? ==> outcome == Returned(Error(weather.message.GetOr(DefaultFailureMessage)))
    ensures weather.Answered? && !WeatherLetsThrough(weather.result) ==>
              outcome == Returned(Error(UnsuitableMessage))
    ensures weather.Answered? && WeatherLetsThrough(weather.result) ==>
              var w := Walk(AvailablePois(MoscowLandmarks, preferred, IsNightTime(localHour)),
                            startPoint, Budget(duration), dist, fuel);
              if w.outOfFuel then outcome == Diverged
              else && outcome.Returned? && outcome.result.Success?
                   && var route := outcome.result.route;
                   && route.id == routeId
                   && route.startPoint == Some(startPoint)
                   && route.waypoints == w.legs
                   && route.distance == PathLength(startPoint, w.legs, dist)
                   && route.duration == duration
                   && route.placeTypes == preferred
                   && route.isIlluminated == IsNightTime(localHour)
                   && route.weatherCondition == ""
                   && route.name == "" && route.createdBy == "" && route.difficulty == ""
                   && route.rating == 0.0 && route.numberOfRatings == 0
                   && route.createdAt == Date(now)
  {
    if weather.Threw? {
      return Returned(Error(weather.message.GetOr(DefaultFailureMessage)));
    }
    if weather.result.WeatherSuccess? {
      if !IsWeatherSuitableForWalking(weather.result.info) {
        return Returned(Error(UnsuitableMessage));
      }
    }
    var maxDistance := duration as real * AvgWalkingSpeed;
    var waypoints, diverged := GenerateWaypoints(startPoint, maxDistance, preferred, IsNightTime(localHour), dist, fuel);
    if diverged {
      return Diverged;
    }
    var distance := CalculateTotalDistance(startPoint, waypoints, dist);
    var route := Route(
      id := routeId,
      name := "",
      createdBy := "",
      startPoint := Some(startPoint),
      waypoints := waypoints,
      distance := distance,
      duration := duration,
      difficulty := "",
      rating := 0.0,
      numberOfRatings := 0,
      createdAt := Date(now),
      placeTypes := preferred,
      isIlluminated := IsNightTime(localHour),
      weatherCondition := "");
    outcome := Returned(RouteGenerationResult.Success(route));
  }

  /** What a generated route promises: its distance is the budget consumed and
      within the budget (for a non-negative duration), a non-positive duration
      gives no waypoints, and every waypoint copies a catalogue entry of a
      preferred category (when any is given) that is safe at night (when it
      is night). */
  lemma GeneratedRouteFacts(startPoint: GeoPoint, duration: int, preferred: seq<string>, localHour: int,
                            dist: Distance, fuel: nat)
    requires DistanceLaws(dist)
    ensures var isNight := IsNightTime(localHour);
            var w := Walk(AvailablePois(MoscowLandmarks, preferred, isNight), startPoint, Budget(duration), dist, fuel);
            && PathLength(startPoint, w.legs, dist) == Budget(duration) - w.remaining
            && (duration >= 0 ==> 0.0 <= PathLength(startPoint, w.legs, dist) <= Budget(duration))
            && (duration <= 0 ==> w.legs == [])
            && forall wp :: wp in w.legs ==>
                 exists p :: p in MoscowLandmarks && wp == ToWaypoint(p)
                   && (|preferred| == 0 || wp.placeType in preferred)
                   && (isNight ==> wp.placeType != "park" && wp.placeType != "forest")
  {
    var isNight := IsNightTime(localHour);
    var pool := AvailablePois(MoscowLandmarks, preferred, isNight);
    var w := Walk(pool, startPoint, Budget(duration), dist, fuel);
    WalkBudget(pool, startPoint, Budget(duration), dist, fuel);
    PathLengthNonNegative(startPoint, w.legs, dist);
    WalkLegsFromPool(pool, startPoint, Budget(duration), dist, fuel);
  }

  /** When the first leg fits with budget to spare, the walk never ends, and
      (with a separating distance and distinct locations) it builds the first
      waypoint followed by copies of itself. */
  lemma WalkRepeatsFirstWaypoint(pool: seq<POI>, startPoint: GeoPoint, budget: real, dist: Distance, fuel: nat)
    requires DistanceLaws(dist) && SeparatesPoints(dist, pool) && DistinctLocations(pool) && fuel >= 1
    requires |pool| > 0 && budget > 0.0 && FirstLeg(pool, startPoint, dist) < budget
    ensures var w := Walk(pool, startPoint, budget, dist, fuel);
            var first := ToWaypoint(pool[NearestIndex(pool, startPoint, dist, |pool|)]);
            w.outOfFuel && w.legs == [first] + Repeat(first, fuel - 1)
  {
    var i := NearestIndex(pool, startPoint, dist, |pool|);
    var d := FirstLeg(pool, startPoint, dist);
    WalkRepeatsPoolEntry(pool, i, budget - d, dist, fuel - 1);
    WalkNeverStopsOnPoolEntry(pool, i, budget - d, dist, fuel - 1);
  }

  /** Over the filtered catalogue: when the first leg fits with budget to
      spare, `generateRoute` never returns, and the route it is building
      repeats its first waypoint; no waypoint other than the first is ever
      added. */
  lemma CatalogueWalkRepeatsFirstWaypoint(startPoint: GeoPoint, budget: real, preferred: seq<string>,
                                          isNight: bool, dist: Distance, fuel: nat)
    requires DistanceLaws(dist) && SeparatesPoints(dist, MoscowLandmarks) && fuel >= 1
    requires var pool := AvailablePois(MoscowLandmarks, preferred, isNight);
             |pool| > 0 && budget > 0.0 && FirstLeg(pool, startPoint, dist) < budget
    ensures var pool := AvailablePois(MoscowLandmarks, preferred, isNight);
            var w := Walk(pool, startPoint, budget, dist, fuel);
            var first := ToWaypoint(pool[NearestIndex(pool, startPoint, dist, |pool|)]);
            w.outOfFuel && w.legs == [first] + Repeat(first, fuel - 1)
  {
    CatalogueLocationsDistinct();
    AvailablePoisDistinct(MoscowLandmarks, preferred, isNight);
    var pool := AvailablePois(MoscowLandmarks, preferred, isNight);
    assert forall p :: p in pool ==> p in MoscowLandmarks;
    WalkRepeatsFirstWaypoint(AvailablePois(MoscowLandmarks, preferred, isNight), startPoint, budget, dist, fuel);
  }

  // ---------------------------------------------------------------------------
  // Concrete cases

  /** The boundaries of the weather gate: -15 and 35 degrees pass, a condition
      only containing "rain" passes, while "Rain" in any case is refused. */
  lemma WeatherGateBoundaries()
    ensures IsWeatherSuitableForWalking(WeatherInfo(-15.0, "Clear", "", true))
    ensures IsWeatherSuitableForWalking(WeatherInfo(35.0, "light rain", "", true))
    ensures !IsWeatherSuitableForWalking(WeatherInfo(-15.5, "Clear", "", true))
    ensures !IsWeatherSuitableForWalking(WeatherInfo(20.0, "Rain", "", true))
    ensures !IsWeatherSuitableForWalking(WeatherInfo(20.0, "ThunderStorm", "", false))
  {
    assert Lowercase("Clear") == "clear";
    assert Lowercase("light rain") == "light rain";
    assert Lowercase("Rain") == "rain";
    assert Lowercase("ThunderStorm") == "thunderstorm";
  }
}
