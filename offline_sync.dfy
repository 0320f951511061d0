/** `OfflineSyncManager`: copies a route into the local store (one route row
    and one row per waypoint), reads it back, and computes the bounding box of
    the route for map tiles. The Room store is a class with the two tables as
    fields: routes keyed by id (insert replaces), waypoint rows in insertion
    order with store-assigned ids. */
module OfflineSync {
  import opened Wrappers
  import opened Model
  import opened Entities

  const EmptyPointsMessage: string := "NoSuchElementException"

  // ---------------------------------------------------------------------------
  // Record mappings

  /** The route row `downloadRoute` stores; a missing start point is stored as
      (0.0, 0.0); the sync time is the clock reading `now`. */
  function ToLocalRoute(route: Route, now: int): (local: LocalRoute)
    ensures local.isDownloaded && local.lastSyncTime == Date(now)
    ensures route.startPoint.None? ==> local.startLatitude == 0.0 && local.startLongitude == 0.0
  {
    LocalRoute(
      id := route.id,
      name := route.name,
      createdBy := route.createdBy,
      startLatitude := if route.startPoint.Some? then route.startPoint.value.latitude else 0.0,
      startLongitude := if route.startPoint.Some? then route.startPoint.value.longitude else 0.0,
      distance := route.distance,
      duration := route.duration,
      difficulty := route.difficulty,
      rating := route.rating,
      numberOfRatings := route.numberOfRatings,
      createdAt := route.createdAt,
      placeTypes := route.placeTypes,
      isIlluminated := route.isIlluminated,
      weatherCondition := route.weatherCondition,
      isDownloaded := true,
      lastSyncTime := Date(now))
  }

  function ToLocalWaypoint(routeId: string, w: Waypoint): LocalWaypoint {
    LocalWaypoint(0, routeId, w.location.latitude, w.location.longitude,
                  w.name, w.description, w.photoUrl, w.placeType)
  }

  /** The waypoint rows of a route: one per waypoint, in order, each carrying
      the route's id. */
  function ToLocalWaypoints(route: Route): (rows: seq<LocalWaypoint>)
    ensures |rows| == |route.waypoints|
    ensures forall i :: 0 <= i < |rows| ==> rows[i].routeId == route.id
  {
    seq(|route.waypoints|, i requires 0 <= i < |route.waypoints| => ToLocalWaypoint(route.id, route.waypoints[i]))
  }

  function FromLocalWaypoint(row: LocalWaypoint): Waypoint {
    Waypoint(GeoPoint(row.latitude, row.longitude), row.name, row.description, row.photoUrl, row.placeType)
  }

  /** The route `getOfflineRoute` rebuilds from a route row and its waypoint
      rows; the start point is never null. */
  function FromLocal(local: LocalRoute, rows: seq<LocalWaypoint>): (route: Route)
    ensures route.startPoint == Some(GeoPoint(local.startLatitude, local.startLongitude))
    ensures |route.waypoints| == |rows|
  {
    Route(
      id := local.id,
      name := local.name,
      createdBy := local.createdBy,
      startPoint := Some(GeoPoint(local.startLatitude, local.startLongitude)),
      waypoints := seq(|rows|, i requires 0 <= i < |rows| => FromLocalWaypoint(rows[i])),
      distance := local.distance,
      duration := local.duration,
      difficulty := local.difficulty,
      rating := local.rating,
      numberOfRatings := local.numberOfRatings,
      createdAt := local.createdAt,
      placeTypes := local.placeTypes,
      isIlluminated := local.isIlluminated,
      weatherCondition := local.weatherCondition)
  }

  /** Rebuilding a stored route gives it back field for field, except that a
      missing start point comes back as (0.0, 0.0). The ids the store gives
      the waypoint rows do not matter. */
  lemma MappingRoundTrip(route: Route, now: int, numbered: seq<LocalWaypoint>)
    requires |numbered| == |route.waypoints|
    requires forall i :: 0 <= i < |numbered| ==> numbered[i] == ToLocalWaypoints(route)[i].(id := numbered[i].id)
    ensures FromLocal(ToLocalRoute(route, now), numbered)
              == route.(startPoint := Some(route.startPoint.GetOr(GeoPoint(0.0, 0.0))))
  {
    var back := FromLocal(ToLocalRoute(route, now), numbered);
    assert back.waypoints == route.waypoints;
  }

  // ---------------------------------------------------------------------------
  // Reading the store

  /** The rows `getWaypointsForRoute` selects, in table order. */
  function RowsFor(rows: seq<LocalWaypoint>, routeId: string): (r: seq<LocalWaypoint>)
    ensures forall x :: x in r <==> x in rows && x.routeId == routeId
    decreases |rows|
  {
    if rows == [] then []
    else (if rows[0].routeId == routeId then [rows[0]] else []) + RowsFor(rows[1..], routeId)
  }

  lemma {:induction false} RowsForAppend(a: seq<LocalWaypoint>, b: seq<LocalWaypoint>, routeId: string)
    ensures RowsFor(a + b, routeId) == RowsFor(a, routeId) + RowsFor(b, routeId)
    decreases |a|
  {
    if a == [] {
      assert a + b == b;
    } else {
      assert (a + b)[1..] == a[1..] + b;
      RowsForAppend(a[1..], b, routeId);
    }
  }

  lemma {:induction false} RowsForAll(rows: seq<LocalWaypoint>, routeId: string)
    requires forall i :: 0 <= i < |rows| ==> rows[i].routeId == routeId
    ensures RowsFor(rows, routeId) == rows
    decreases |rows|
  {
    if rows != [] {
      RowsForAll(rows[1..], routeId);
    }
  }

  lemma RowsForNone(rows: seq<LocalWaypoint>, routeId: string)
    requires forall x :: x in rows ==> x.routeId != routeId
    ensures RowsFor(rows, routeId) == []
  {
  }

  /** The rows left when the route row `routeId` is deleted: the foreign key
      on `routeId` cascades the delete to its waypoint rows. */
  function RemoveRows(rows: seq<LocalWaypoint>, routeId: string): (r: seq<LocalWaypoint>)
    ensures forall x :: x in r <==> x in rows && x.routeId != routeId
    decreases |rows|
  {
    if rows == [] then []
    else (if rows[0].routeId != routeId then [rows[0]] else []) + RemoveRows(rows[1..], routeId)
  }

  /** Every waypoint row belongs to a stored route (the foreign key). */
  ghost predicate RowsHaveParents(routes: map<string, LocalRoute>, rows: seq<LocalWaypoint>) {
    forall x :: x in rows ==> x.routeId in routes
  }

  /** The tables after `downloadRoute` has inserted the route row (replacing,
      and so cascading to the rows of, an earlier row with that id) and then
      its waypoint rows numbered from `firstId`. */
  function AfterDownload(routes: map<string, LocalRoute>, rows: seq<LocalWaypoint>, firstId: int,
                         route: Route, now: int): (r: (map<string, LocalRoute>, seq<LocalWaypoint>))
    ensures r.0 == routes[route.id := ToLocalRoute(route, now)]
    ensures RowsHaveParents(routes, rows) ==> RowsHaveParents(r.0, r.1)
  {
    var kept := if route.id in routes then RemoveRows(rows, route.id) else rows;
    (routes[route.id := ToLocalRoute(route, now)], kept + Numbered(ToLocalWaypoints(route), firstId))
  }

  /** `getOfflineRoute` over a state of the store. */
  function ReadRoute(routes: map<string, LocalRoute>, rows: seq<LocalWaypoint>, routeId: string): (r: Option<Route>)
    ensures r.None? <==> routeId !in routes
  {
    if routeId !in routes then None else Some(FromLocal(routes[routeId], RowsFor(rows, routeId)))
  }

  /** Rows numbered by the store from `firstId` on. */
  function Numbered(rows: seq<LocalWaypoint>, firstId: int): (r: seq<LocalWaypoint>)
    ensures |r| == |rows|
    ensures forall i :: 0 <= i < |r| ==> r[i] == rows[i].(id := firstId + i)
  {
    seq(|rows|, i requires 0 <= i < |rows| => rows[i].(id := firstId + i))
  }

  /** Downloading a route and reading it back reproduces the route, whether
      or not it was stored before; only a missing start point comes back as
      (0.0, 0.0). Other routes read back as before. */
  lemma DownloadThenRead(routes: map<string, LocalRoute>, rows: seq<LocalWaypoint>, firstId: int,
                         route: Route, now: int)
    requires RowsHaveParents(routes, rows)
    ensures var (routes', rows') := AfterDownload(routes, rows, firstId, route, now);
            ReadRoute(routes', rows', route.id)
              == Some(route.(startPoint := Some(route.startPoint.GetOr(GeoPoint(0.0, 0.0)))))
  {
    var kept := if route.id in routes then RemoveRows(rows, route.id) else rows;
    var added := Numbered(ToLocalWaypoints(route), firstId);
    assert AfterDownload(routes, rows, firstId, route, now).1 == kept + added;
    RowsForAppend(kept, added, route.id);
    RowsForNone(kept, route.id);
    RowsForAll(added, route.id);
    assert RowsFor(kept + added, route.id) == added;
    MappingRoundTrip(route, now, added);
  }

  /** A download leaves every other stored route as it reads. */
  lemma DownloadKeepsOthers(routes: map<string, LocalRoute>, rows: seq<LocalWaypoint>, firstId: int,
                            route: Route, now: int, otherId: string)
    requires otherId != route.id
    ensures var (routes', rows') := AfterDownload(routes, rows, firstId, route, now);
            ReadRoute(routes', rows', otherId) == ReadRoute(routes, rows, otherId)
  {
    var kept := if route.id in routes then RemoveRows(rows, route.id) else rows;
    var added := Numbered(ToLocalWaypoints(route), firstId);
    var after := AfterDownload(routes, rows, firstId, route, now);
    assert after.1 == kept + added;
    RowsForAppend(kept, added, otherId);
    RowsForNone(added, otherId);
    if route.id in routes {
      RemoveRowsKeepsOthers(rows, route.id, otherId);
    }
    assert RowsFor(after.1, otherId) == RowsFor(rows, otherId);
    assert otherId in after.0 <==> otherId in routes;
    if otherId in routes {
      assert after.0[otherId] == routes[otherId];
    }
  }

  lemma {:induction false} RemoveRowsKeepsOthers(rows: seq<LocalWaypoint>, routeId: string, otherId: string)
    requires otherId != routeId
    ensures RowsFor(RemoveRows(rows, routeId), otherId) == RowsFor(rows, otherId)
    decreases |rows|
  {
    if rows != [] {
      RemoveRowsKeepsOthers(rows[1..], routeId, otherId);
      var head := if rows[0].routeId != routeId then [rows[0]] else [];
      RowsForAppend(head, RemoveRows(rows[1..], routeId), otherId);
    }
  }

  // ---------------------------------------------------------------------------
  // Bounding box of `downloadMapTiles`

  /** `LatLngBounds(southwest, northeast)`. */
  datatype LatLngBounds = LatLngBounds(southwest: GeoPoint, northeast: GeoPoint)

  /** The points the box must cover: the start point if there is one, then
      every waypoint. */
  function TilePoints(route: Route): seq<GeoPoint> {
    (if route.startPoint.Some? then [route.startPoint.value] else [])
    + seq(|route.waypoints|, i requires 0 <= i < |route.waypoints| => route.waypoints[i].location)
  }

  /** `downloadMapTiles`: the smallest box around the route's points. With no
      point at all `minOf` throws, which is `None` here. */
  method BoundingBox(route: Route) returns (box: Option<LatLngBounds>)
    ensures box.None? <==> TilePoints(route) == []
    ensures box.Some? ==>
              var sw, ne := box.value.southwest, box.value.northeast;
              && (forall p :: p in TilePoints(route) ==>
                    sw.latitude <= p.latitude <= ne.latitude && sw.longitude <= p.longitude <= ne.longitude)
              && (exists p :: p in TilePoints(route) && p.latitude == sw.latitude)
              && (exists p :: p in TilePoints(route) && p.latitude == ne.latitude)
              && (exists p :: p in TilePoints(route) && p.longitude == sw.longitude)
              && (exists p :: p in TilePoints(route) && p.longitude == ne.longitude)
  {
    var points: seq<GeoPoint> := [];
    if route.startPoint.Some? {
      points := points + [route.startPoint.value];
    }
    points := points + seq(|route.waypoints|, i requires 0 <= i < |route.waypoints| => route.waypoints[i].location);
    assert points == TilePoints(route);
    if points == [] {
      return None;
    }
    var minLat, maxLat := points[0].latitude, points[0].latitude;
    var minLng, maxLng := points[0].longitude, points[0].longitude;
    // Where each bound was attained.
    ghost var south, north, west, east := 0, 0, 0, 0;
    var i := 1;
    while i < |points|
      invariant 1 <= i <= |points|
      invariant forall k :: 0 <= k < i ==> minLat <= points[k].latitude <= maxLat
      invariant forall k :: 0 <= k < i ==> minLng <= points[k].longitude <= maxLng
      invariant 0 <= south < i && points[south].latitude == minLat
      invariant 0 <= north < i && points[north].latitude == maxLat
      invariant 0 <= west < i && points[west].longitude == minLng
      invariant 0 <= east < i && points[east].longitude == maxLng
    {
      var p := points[i];
      if p.latitude < minLat { minLat := p.latitude; south := i; }
      if p.latitude > maxLat { maxLat := p.latitude; north := i; }
      if p.longitude < minLng { minLng := p.longitude; west := i; }
      if p.longitude > maxLng { maxLng := p.longitude; east := i; }
      i := i + 1;
    }
    assert points[south] in points && points[north] in points;
    assert points[west] in points && points[east] in points;
    box := Some(LatLngBounds(GeoPoint(minLat, minLng), GeoPoint(maxLat, maxLng)));
  }

  // ---------------------------------------------------------------------------
  // The store

  class OfflineSyncManager {
    /** The `routes` table, keyed by id. */
    var routes: map<string, LocalRoute>
    /** The `waypoints` table, in insertion order. */
    var waypointRows: seq<LocalWaypoint>
    /** The id the store gives the next waypoint row. */
    var nextWaypointId: int

    constructor ()
      ensures Valid()
      ensures routes == map[] && waypointRows == [] && nextWaypointId == 1
    {
      routes := map[];
      waypointRows := [];
      nextWaypointId := 1;
    }

    /** Every waypoint row belongs to a stored route. */
    ghost predicate Valid()
      reads this
    {
      RowsHaveParents(routes, waypointRows)
    }

    /** `downloadRoute`: store the route row (replacing one with the same id,
        which cascades to that route's waypoint rows) and its waypoint rows,
        then compute the tile box, which throws when the route has no point
        at all; the rows stay stored then. */
    method DownloadRoute(route: Route, now: int) returns (result: Result<(), string>)
      requires Valid()
      modifies this
      ensures Valid()
      ensures (routes, waypointRows)
                == AfterDownload(old(routes), old(waypointRows), old(nextWaypointId), route, now)
      ensures nextWaypointId == old(nextWaypointId) + |route.waypoints|
      ensures result.Failure? <==> route.startPoint.None? && route.waypoints == []
    {
      var localRoute := ToLocalRoute(route, now);
      var localWaypoints := ToLocalWaypoints(route);
      if route.id in routes {
        waypointRows := RemoveRows(waypointRows, route.id);
      }
      routes := routes[route.id := localRoute];
      waypointRows := waypointRows + Numbered(localWaypoints, nextWaypointId);
      nextWaypointId := nextWaypointId + |localWaypoints|;
      var box := BoundingBox(route);
      if box.None? {
        return Failure(EmptyPointsMessage);
      }
      return Success(());
    }

    /** `getOfflineRoute`: null exactly when no route row has that id. */
    function GetOfflineRoute(routeId: string): (r: Option<Route>)
      reads this
      ensures r.None? <==> routeId !in routes
      ensures r == ReadRoute(routes, waypointRows, routeId)
    {
      ReadRoute(routes, waypointRows, routeId)
    }
  }
}
