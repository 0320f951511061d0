/** `AchievementsManager`: the fixed list of achievement definitions,
    `checkAchievements` (threshold tiers and weather badges after a route)
    and `checkStreak` (consecutive days of walking). The profile store is
    left out: each check takes the profile it reads (`None` when there is
    none) and returns the achievement lists it would write. */
module Achievements {
  import opened Wrappers
  import opened Text
  import opened Model

  // ---------------------------------------------------------------------------
  // Definitions

  const Distance10km := AchievementDefinition("distance_10km", DistanceType, "Moscow Beginner", "Walk 10 kilometers in total", 10000, 10)
  const Distance50km := AchievementDefinition("distance_50km", DistanceType, "Moscow Explorer", "Walk 50 kilometers in total", 50000, 50)
  const Distance100km := AchievementDefinition("distance_100km", DistanceType, "Moscow Master", "Walk 100 kilometers in total", 100000, 100)
  const Routes10 := AchievementDefinition("routes_10", RoutesCompleted, "Route Enthusiast", "Complete 10 different routes", 10, 20)
  const Routes50 := AchievementDefinition("routes_50", RoutesCompleted, "Route Master", "Complete 50 different routes", 50, 100)
  const Locations20 := AchievementDefinition("locations_20", UniqueLocations, "Moscow Tourist", "Visit 20 unique locations", 20, 30)
  const Locations50 := AchievementDefinition("locations_50", UniqueLocations, "Moscow Expert", "Visit 50 unique locations", 50, 75)
  const WeatherSnow := AchievementDefinition("weather_snow", WeatherWarrior, "Snow Walker", "Complete a route in snowy weather", 1, 25)
  const WeatherRain := AchievementDefinition("weather_rain", WeatherWarrior, "Rain Walker", "Complete a route in rainy weather", 1, 25)
  const NightWalkerBadge := AchievementDefinition("night_walker", NightWalker, "Night Explorer", "Complete 5 routes at night", 5, 50)
  const Streak7 := AchievementDefinition("streak_7", Streak, "Weekly Warrior", "Complete routes 7 days in a row", 7, 70)
  const Streak30 := AchievementDefinition("streak_30", Streak, "Monthly Master", "Complete routes 30 days in a row", 30, 300)

  const DistanceDefinitions := [Distance10km, Distance50km, Distance100km]
  const RouteDefinitions := [Routes10, Routes50]
  const LocationDefinitions := [Locations20, Locations50]
  const OtherDefinitions := [WeatherSnow, WeatherRain, NightWalkerBadge]
  const StreakDefinitions := [Streak7, Streak30]

  /** The definition list, in the order the manager declares it. */
  const Definitions: seq<AchievementDefinition> :=
    DistanceDefinitions + RouteDefinitions + LocationDefinitions + OtherDefinitions + StreakDefinitions

  /** `filter { it.type == kind }`. */
  function OfKind(defs: seq<AchievementDefinition>, kind: AchievementType): (r: seq<AchievementDefinition>)
    ensures forall d :: d in r <==> d in defs && d.kind == kind
    ensures |r| <= |defs|
  {
    if defs == [] then []
    else (if defs[0].kind == kind then [defs[0]] else []) + OfKind(defs[1..], kind)
  }

  /** `find { it.id == id }`: the first definition with that id. */
  function FindById(defs: seq<AchievementDefinition>, id: string): (r: Option<AchievementDefinition>)
    ensures r.Some? ==> r.value in defs && r.value.id == id
    ensures r.None? <==> forall d :: d in defs ==> d.id != id
  {
    if defs == [] then None
    else if defs[0].id == id then Some(defs[0])
    else FindById(defs[1..], id)
  }

  predicate DistinctIds(defs: seq<AchievementDefinition>) {
    forall i, j :: 0 <= i < j < |defs| ==> defs[i].id != defs[j].id
  }

  lemma DefinitionIdsDistinct()
    ensures DistinctIds(Definitions)
  {
  }

  lemma {:induction false} OfKindAppend(a: seq<AchievementDefinition>, b: seq<AchievementDefinition>, kind: AchievementType)
    ensures OfKind(a + b, kind) == OfKind(a, kind) + OfKind(b, kind)
    decreases |a|
  {
    if a == [] {
      assert a + b == b;
    } else {
      var head := if a[0].kind == kind then [a[0]] else [];
      assert (a + b)[0] == a[0] && (a + b)[1..] == a[1..] + b;
      OfKindAppend(a[1..], b, kind);
      calc {
        OfKind(a + b, kind);
        head + OfKind(a[1..] + b, kind);
        head + (OfKind(a[1..], kind) + OfKind(b, kind));
        (head + OfKind(a[1..], kind)) + OfKind(b, kind);
      }
    }
  }

  lemma {:induction false} OfKindAll(defs: seq<AchievementDefinition>, kind: AchievementType)
    requires forall i :: 0 <= i < |defs| ==> defs[i].kind == kind
    ensures OfKind(defs, kind) == defs
    decreases |defs|
  {
    if defs != [] {
      assert forall i :: 0 <= i < |defs[1..]| ==> defs[1..][i] == defs[i + 1];
      OfKindAll(defs[1..], kind);
    }
  }

  lemma {:induction false} OfKindNone(defs: seq<AchievementDefinition>, kind: AchievementType)
    requires forall i :: 0 <= i < |defs| ==> defs[i].kind != kind
    ensures OfKind(defs, kind) == []
    decreases |defs|
  {
    if defs != [] {
      assert forall i :: 0 <= i < |defs[1..]| ==> defs[1..][i] == defs[i + 1];
      OfKindNone(defs[1..], kind);
    }
  }

  lemma OneGroupOfKind(before: seq<AchievementDefinition>, group: seq<AchievementDefinition>,
                       after: seq<AchievementDefinition>, kind: AchievementType)
    requires forall i :: 0 <= i < |before| ==> before[i].kind != kind
    requires forall i :: 0 <= i < |group| ==> group[i].kind == kind
    requires forall i :: 0 <= i < |after| ==> after[i].kind != kind
    ensures OfKind(before + group + after, kind) == group
  {
    OfKindAppend(before + group, after, kind);
    OfKindAppend(before, group, kind);
    OfKindNone(before, kind);
    OfKindAll(group, kind);
    OfKindNone(after, kind);
  }

  /** The definitions of one kind are exactly the group declared together,
      in declaration order. */
  lemma DistanceGroup()
    ensures OfKind(Definitions, DistanceType) == DistanceDefinitions
  {
    var after := RouteDefinitions + LocationDefinitions + OtherDefinitions + StreakDefinitions;
    assert Definitions == [] + DistanceDefinitions + after;
    OneGroupOfKind([], DistanceDefinitions, after, DistanceType);
  }

  lemma RouteGroup()
    ensures OfKind(Definitions, RoutesCompleted) == RouteDefinitions
  {
    var after := LocationDefinitions + OtherDefinitions + StreakDefinitions;
    assert Definitions == DistanceDefinitions + RouteDefinitions + after;
    OneGroupOfKind(DistanceDefinitions, RouteDefinitions, after, RoutesCompleted);
  }

  lemma LocationGroup()
    ensures OfKind(Definitions, UniqueLocations) == LocationDefinitions
  {
    var before := DistanceDefinitions + RouteDefinitions;
    var after := OtherDefinitions + StreakDefinitions;
    assert Definitions == before + LocationDefinitions + after;
    OneGroupOfKind(before, LocationDefinitions, after, UniqueLocations);
  }

  lemma StreakGroup()
    ensures OfKind(Definitions, Streak) == StreakDefinitions
  {
    var before := DistanceDefinitions + RouteDefinitions + LocationDefinitions + OtherDefinitions;
    assert Definitions == before + StreakDefinitions + [];
    OneGroupOfKind(before, StreakDefinitions, [], Streak);
  }

  /** A definition of the list is the only one with its id. */
  lemma DefinitionById(d: AchievementDefinition, e: AchievementDefinition)
    requires d in Definitions && e in Definitions && d.id == e.id
    ensures d == e
  {
    DefinitionIdsDistinct();
    SameIdSameDefinition(Definitions, d, e);
  }

  lemma FindDefinition(d: AchievementDefinition)
    requires d in Definitions
    ensures FindById(Definitions, d.id) == Some(d)
  {
    var r := FindById(Definitions, d.id);
    DefinitionById(r.value, d);
  }

  // ---------------------------------------------------------------------------
  // checkAchievements

  /** The ids of a list of achievements (`associateBy { it.id }`'s keys). */
  function Ids(achievements: seq<Achievement>): set<string> {
    set a | a in achievements :: a.id
  }

  predicate DistinctAchievementIds(achievements: seq<Achievement>) {
    forall i, j :: 0 <= i < j < |achievements| ==> achievements[i].id != achievements[j].id
  }

  /** The achievement a definition unlocks at time `now`. */
  function Unlock(d: AchievementDefinition, now: int): Achievement {
    Achievement(d.id, d.name, d.description, "achievement_" + d.id, now)
  }

  /** A tier definition is earned when it is not held yet and the statistic
      has reached its threshold. */
  predicate Qualifies(d: AchievementDefinition, held: set<string>, stat: real) {
    d.id !in held && stat >= d.threshold as real
  }

  /** What one `forEach` over a tier adds, in the tier's order. */
  function TierAwards(defs: seq<AchievementDefinition>, held: set<string>, stat: real, now: int): (r: seq<Achievement>)
    ensures |r| <= |defs|
    ensures forall a :: a in r <==> exists d :: d in defs && Qualifies(d, held, stat) && a == Unlock(d, now)
  {
    if defs == [] then []
    else
      var last := defs[|defs| - 1];
      TierAwards(defs[..|defs| - 1], held, stat, now)
        + (if Qualifies(last, held, stat) then [Unlock(last, now)] else [])
  }

  /** The `forEach` loop over one tier. */
  method AwardTier(defs: seq<AchievementDefinition>, held: set<string>, stat: real, now: int)
    returns (awarded: seq<Achievement>)
    ensures awarded == TierAwards(defs, held, stat, now)
  {
    awarded := [];
    for i := 0 to |defs|
      invariant awarded == TierAwards(defs[..i], held, stat, now)
    {
      assert defs[..i + 1][..i] == defs[..i];
      var d := defs[i];
      if d.id !in held && stat >= d.threshold as real {
        awarded := awarded + [Unlock(d, now)];
      }
    }
    assert defs[..|defs|] == defs;
  }

  /** A weather badge: earned when the lowercased condition contains the
      keyword and the badge is not held yet. */
  function WeatherBadge(defs: seq<AchievementDefinition>, condition: string, held: set<string>,
                        keyword: string, badgeId: string, now: int): (badge: seq<Achievement>)
    ensures |badge| <= 1
    ensures badge != [] <==> Contains(Lowercase(condition), keyword) && badgeId !in held && FindById(defs, badgeId).Some?
    ensures badge != [] ==> badge[0] == Unlock(FindById(defs, badgeId).value, now) && badge[0].id == badgeId
  {
    if Contains(Lowercase(condition), keyword) && badgeId !in held then
      match FindById(defs, badgeId)
      case Some(d) => [Unlock(d, now)]
      case None => []
    else []
  }

  /** One weather check of `checkAchievements`. */
  method AwardWeather(defs: seq<AchievementDefinition>, condition: string, held: set<string>,
                      keyword: string, badgeId: string, now: int)
    returns (badge: seq<Achievement>)
    ensures badge == WeatherBadge(defs, condition, held, keyword, badgeId, now)
    ensures |badge| <= 1
    ensures badge != [] <==> Contains(Lowercase(condition), keyword) && badgeId !in held && FindById(defs, badgeId).Some?
    ensures badge != [] ==> badge[0] == Unlock(FindById(defs, badgeId).value, now) && badge[0].id == badgeId
  {
    badge := [];
    if Contains(Lowercase(condition), keyword) && badgeId !in held {
      var found := FindById(defs, badgeId);
      if found.Some? {
        badge := [Unlock(found.value, now)];
      }
    }
  }

  /** The statistic a tier kind is measured by. The total distance is an
      input: the manager reads it from the statistics record, which has no
      such field. */
  function StatFor(kind: AchievementType, profile: UserProfile, distanceStat: real): real {
    match kind
    case DistanceType => distanceStat
    case RoutesCompleted => profile.completedRoutes as real
    case UniqueLocations => profile.statistics.uniqueLocationsVisited as real
    case _ => 0.0
  }

  predicate IsTierKind(kind: AchievementType) {
    kind == DistanceType || kind == RoutesCompleted || kind == UniqueLocations
  }

  /** The achievements `checkAchievements` adds from the definition list
      `defs`, grouped as it adds them: distance, routes, locations, snow,
      rain. */
  function NewAchievements(defs: seq<AchievementDefinition>, profile: UserProfile, route: Route,
                           distanceStat: real, now: int): seq<Achievement> {
    var held := Ids(profile.achievements);
    TierAwards(OfKind(defs, DistanceType), held, StatFor(DistanceType, profile, distanceStat), now)
    + TierAwards(OfKind(defs, RoutesCompleted), held, StatFor(RoutesCompleted, profile, distanceStat), now)
    + TierAwards(OfKind(defs, UniqueLocations), held, StatFor(UniqueLocations, profile, distanceStat), now)
    + WeatherBadge(defs, route.weatherCondition, held, "snow", "weather_snow", now)
    + WeatherBadge(defs, route.weatherCondition, held, "rain", "weather_rain", now)
  }

  /** `checkAchievements` over the definition list `defs`: the list written
      back to the profile, if any. No profile, or nothing new, means no
      write. */
  method CheckAchievements(defs: seq<AchievementDefinition>, profile: Option<UserProfile>, route: Route,
                           distanceStat: real, now: int)
    returns (written: Option<seq<Achievement>>)
    ensures profile.None? ==> written.None?
    ensures profile.Some? ==>
              var added := NewAchievements(defs, profile.value, route, distanceStat, now);
              && (written.None? <==> added == [])
              && (written.Some? ==> written.value == profile.value.achievements + added)
  {
    if profile.None? {
      return None;
    }
    var userProfile := profile.value;
    var held := Ids(userProfile.achievements);
    var newAchievements: seq<Achievement> := [];
    var distanceAwards := AwardTier(OfKind(defs, DistanceType), held, distanceStat, now);
    newAchievements := newAchievements + distanceAwards;
    assert newAchievements == distanceAwards;
    var routeAwards := AwardTier(OfKind(defs, RoutesCompleted), held, userProfile.completedRoutes as real, now);
    newAchievements := newAchievements + routeAwards;
    var locationAwards := AwardTier(OfKind(defs, UniqueLocations), held, userProfile.statistics.uniqueLocationsVisited as real, now);
    newAchievements := newAchievements + locationAwards;
    var snowBadge := AwardWeather(defs, route.weatherCondition, held, "snow", "weather_snow", now);
    newAchievements := newAchievements + snowBadge;
    var rainBadge := AwardWeather(defs, route.weatherCondition, held, "rain", "weather_rain", now);
    newAchievements := newAchievements + rainBadge;
    assert newAchievements == distanceAwards + routeAwards + locationAwards + snowBadge + rainBadge;
    if newAchievements != [] {
      written := Some(userProfile.achievements + newAchievements);
    } else {
      written := None;
    }
  }

  /** Why a definition is earned in `checkAchievements`, apart from not
      being held yet. */
  predicate Earned(d: AchievementDefinition, profile: UserProfile, route: Route, distanceStat: real) {
    || (IsTierKind(d.kind) && StatFor(d.kind, profile, distanceStat) >= d.threshold as real)
    || (d.id == "weather_snow" && Contains(Lowercase(route.weatherCondition), "snow"))
    || (d.id == "weather_rain" && Contains(Lowercase(route.weatherCondition), "rain"))
  }

  /** Every added achievement unlocks a definition of the list that is not
      held yet and is earned. */
  lemma NewOrigin(defs: seq<AchievementDefinition>, profile: UserProfile, route: Route, distanceStat: real,
                  now: int, a: Achievement)
    requires a in NewAchievements(defs, profile, route, distanceStat, now)
    ensures exists d :: d in defs && a == Unlock(d, now) && d.id !in Ids(profile.achievements)
                        && Earned(d, profile, route, distanceStat)
  {
    var held := Ids(profile.achievements);
    var parts := [
      TierAwards(OfKind(defs, DistanceType), held, StatFor(DistanceType, profile, distanceStat), now),
      TierAwards(OfKind(defs, RoutesCompleted), held, StatFor(RoutesCompleted, profile, distanceStat), now),
      TierAwards(OfKind(defs, UniqueLocations), held, StatFor(UniqueLocations, profile, distanceStat), now),
      WeatherBadge(defs, route.weatherCondition, held, "snow", "weather_snow", now),
      WeatherBadge(defs, route.weatherCondition, held, "rain", "weather_rain", now)];
    assert a in parts[0] || a in parts[1] || a in parts[2] || a in parts[3] || a in parts[4];
  }

  /** No added achievement repeats one the profile holds. */
  lemma NeverReawarded(defs: seq<AchievementDefinition>, profile: UserProfile, route: Route, distanceStat: real, now: int)
    ensures Ids(NewAchievements(defs, profile, route, distanceStat, now)) !! Ids(profile.achievements)
  {
    forall a | a in NewAchievements(defs, profile, route, distanceStat, now)
      ensures a.id !in Ids(profile.achievements)
    {
      NewOrigin(defs, profile, route, distanceStat, now, a);
    }
  }

  /** Exactly when a definition of the manager's list is added: it is not
      held, and it is a distance, routes or locations tier whose statistic
      has reached the threshold, or the snow or rain badge whose keyword the
      lowercased weather condition contains. */
  lemma AwardedIff(profile: UserProfile, route: Route, distanceStat: real, now: int, d: AchievementDefinition)
    requires d in Definitions
    ensures d.id in Ids(NewAchievements(Definitions, profile, route, distanceStat, now))
            <==> d.id !in Ids(profile.achievements)
                 && (|| (IsTierKind(d.kind) && StatFor(d.kind, profile, distanceStat) >= d.threshold as real)
                     || (d == WeatherSnow && Contains(Lowercase(route.weatherCondition), "snow"))
                     || (d == WeatherRain && Contains(Lowercase(route.weatherCondition), "rain")))
  {
    if d.id in Ids(NewAchievements(Definitions, profile, route, distanceStat, now)) {
      AwardedOnlyIf(profile, route, distanceStat, now, d);
    }
    if && d.id !in Ids(profile.achievements)
       && (|| (IsTierKind(d.kind) && StatFor(d.kind, profile, distanceStat) >= d.threshold as real)
           || (d == WeatherSnow && Contains(Lowercase(route.weatherCondition), "snow"))
           || (d == WeatherRain && Contains(Lowercase(route.weatherCondition), "rain")))
    {
      AwardedIf(profile, route, distanceStat, now, d);
    }
  }

  /** The "only if" half of `AwardedIff`. */
  lemma AwardedOnlyIf(profile: UserProfile, route: Route, distanceStat: real, now: int, d: AchievementDefinition)
    requires d in Definitions
    requires d.id in Ids(NewAchievements(Definitions, profile, route, distanceStat, now))
    ensures d.id !in Ids(profile.achievements)
    ensures || (IsTierKind(d.kind) && StatFor(d.kind, profile, distanceStat) >= d.threshold as real)
            || (d == WeatherSnow && Contains(Lowercase(route.weatherCondition), "snow"))
            || (d == WeatherRain && Contains(Lowercase(route.weatherCondition), "rain"))
  {
    var added := NewAchievements(Definitions, profile, route, distanceStat, now);
    var held := Ids(profile.achievements);
    var a :| a in added && a.id == d.id;
    NewOrigin(Definitions, profile, route, distanceStat, now, a);
    var e :| e in Definitions && a == Unlock(e, now) && e.id !in held && Earned(e, profile, route, distanceStat);
    DefinitionById(d, e);
    if e.id == "weather_snow" {
      DefinitionById(e, WeatherSnow);
    }
    if e.id == "weather_rain" {
      DefinitionById(e, WeatherRain);
    }
  }

  /** The "if" half of `AwardedIff`. */
  lemma AwardedIf(profile: UserProfile, route: Route, distanceStat: real, now: int, d: AchievementDefinition)
    requires d in Definitions && d.id !in Ids(profile.achievements)
    requires || (IsTierKind(d.kind) && StatFor(d.kind, profile, distanceStat) >= d.threshold as real)
             || (d == WeatherSnow && Contains(Lowercase(route.weatherCondition), "snow"))
             || (d == WeatherRain && Contains(Lowercase(route.weatherCondition), "rain"))
    ensures d.id in Ids(NewAchievements(Definitions, profile, route, distanceStat, now))
  {
    if IsTierKind(d.kind) && StatFor(d.kind, profile, distanceStat) >= d.threshold as real {
      TierDefinitionAwarded(Definitions, profile, route, distanceStat, now, d);
    } else if d == WeatherSnow && Contains(Lowercase(route.weatherCondition), "snow") {
      FindDefinition(WeatherSnow);
      BadgeAwarded(Definitions, profile, route, distanceStat, now, d, "snow");
    } else {
      FindDefinition(WeatherRain);
      BadgeAwarded(Definitions, profile, route, distanceStat, now, d, "rain");
    }
  }

  /** A tier definition that is not held and whose statistic reached its
      threshold is unlocked. */
  lemma TierDefinitionAwarded(defs: seq<AchievementDefinition>, profile: UserProfile, route: Route,
                              distanceStat: real, now: int, d: AchievementDefinition)
    requires d in defs && d.id !in Ids(profile.achievements)
    requires IsTierKind(d.kind) && StatFor(d.kind, profile, distanceStat) >= d.threshold as real
    ensures d.id in Ids(NewAchievements(defs, profile, route, distanceStat, now))
  {
    var held := Ids(profile.achievements);
    var part := TierAwards(OfKind(defs, d.kind), held, StatFor(d.kind, profile, distanceStat), now);
    assert d in OfKind(defs, d.kind);
    assert Unlock(d, now) in part;
    assert Unlock(d, now) in NewAchievements(defs, profile, route, distanceStat, now);
  }

  /** A weather badge found in the list, not held, whose keyword the
      condition contains, is unlocked. */
  lemma BadgeAwarded(defs: seq<AchievementDefinition>, profile: UserProfile, route: Route,
                     distanceStat: real, now: int, d: AchievementDefinition, keyword: string)
    requires FindById(defs, d.id) == Some(d) && d.id !in Ids(profile.achievements)
    requires (keyword == "snow" && d.id == "weather_snow") || (keyword == "rain" && d.id == "weather_rain")
    requires Contains(Lowercase(route.weatherCondition), keyword)
    ensures d.id in Ids(NewAchievements(defs, profile, route, distanceStat, now))
  {
    var held := Ids(profile.achievements);
    var added := NewAchievements(defs, profile, route, distanceStat, now);
    var badge := WeatherBadge(defs, route.weatherCondition, held, keyword, d.id, now);
    assert badge == [Unlock(d, now)];
    var tiers := TierAwards(OfKind(defs, DistanceType), held, StatFor(DistanceType, profile, distanceStat), now)
      + TierAwards(OfKind(defs, RoutesCompleted), held, StatFor(RoutesCompleted, profile, distanceStat), now)
      + TierAwards(OfKind(defs, UniqueLocations), held, StatFor(UniqueLocations, profile, distanceStat), now);
    var snow := WeatherBadge(defs, route.weatherCondition, held, "snow", "weather_snow", now);
    var rain := WeatherBadge(defs, route.weatherCondition, held, "rain", "weather_rain", now);
    assert added == tiers + snow + rain;
    if keyword == "snow" {
      assert added[|tiers|] == Unlock(d, now);
    } else {
      assert added[|tiers| + |snow|] == Unlock(d, now);
    }
  }

  /** `night_walker` and the streak badges are never added by
      `checkAchievements`. */
  lemma NotAwardedByCheck(profile: UserProfile, route: Route, distanceStat: real, now: int)
    ensures var ids := Ids(NewAchievements(Definitions, profile, route, distanceStat, now));
            "night_walker" !in ids && "streak_7" !in ids && "streak_30" !in ids
  {
    AwardedIff(profile, route, distanceStat, now, NightWalkerBadge);
    AwardedIff(profile, route, distanceStat, now, Streak7);
    AwardedIff(profile, route, distanceStat, now, Streak30);
  }

  predicate ThresholdsIncrease(group: seq<AchievementDefinition>) {
    forall i, j :: 0 <= i < j < |group| ==> group[i].threshold < group[j].threshold
  }

  /** The groups as declared, each with ascending thresholds. */
  lemma DeclaredThresholdsIncrease()
    ensures ThresholdsIncrease(DistanceDefinitions) && ThresholdsIncrease(RouteDefinitions)
    ensures ThresholdsIncrease(LocationDefinitions) && ThresholdsIncrease(StreakDefinitions)
  {
    var g := DistanceDefinitions;
    assert g[0].threshold < g[1].threshold < g[2].threshold;
  }

  /** Within each tier kind the thresholds strictly ascend. */
  lemma ThresholdsAscend(kind: AchievementType, i: int, j: int)
    requires IsTierKind(kind) || kind == Streak
    requires 0 <= i < j < |OfKind(Definitions, kind)|
    ensures OfKind(Definitions, kind)[i].threshold < OfKind(Definitions, kind)[j].threshold
  {
    DeclaredThresholdsIncrease();
    if kind == DistanceType {
      DistanceGroup();
    } else if kind == RoutesCompleted {
      RouteGroup();
    } else if kind == UniqueLocations {
      LocationGroup();
    } else {
      StreakGroup();
    }
  }

  /** Tiers are monotone: when a higher tier is added, every lower tier of
      the same kind is held already or added in the same call. */
  lemma TiersMonotone(profile: UserProfile, route: Route, distanceStat: real, now: int,
                      kind: AchievementType, i: int, j: int)
    requires IsTierKind(kind)
    requires 0 <= i < j < |OfKind(Definitions, kind)|
    requires OfKind(Definitions, kind)[j].id in Ids(NewAchievements(Definitions, profile, route, distanceStat, now))
    ensures var lower := OfKind(Definitions, kind)[i];
            lower.id in Ids(profile.achievements)
            || lower.id in Ids(NewAchievements(Definitions, profile, route, distanceStat, now))
  {
    var tier := OfKind(Definitions, kind);
    assert tier[i] in tier && tier[j] in tier;
    ThresholdsAscend(kind, i, j);
    AwardedIff(profile, route, distanceStat, now, tier[j]);
    AwardedIff(profile, route, distanceStat, now, tier[i]);
  }

  /** A route whose weather condition is empty, as every generated route's
      is, earns no weather badge. */
  lemma NoWeatherBadgeWithoutCondition(profile: UserProfile, route: Route, distanceStat: real, now: int)
    requires route.weatherCondition == ""
    ensures var ids := Ids(NewAchievements(Definitions, profile, route, distanceStat, now));
            "weather_snow" !in ids && "weather_rain" !in ids
  {
    assert Lowercase("") == "";
    assert !Contains("", "snow") && !Contains("", "rain");
    AwardedIff(profile, route, distanceStat, now, WeatherSnow);
    AwardedIff(profile, route, distanceStat, now, WeatherRain);
  }

  lemma DistinctAppend(x: seq<Achievement>, y: seq<Achievement>)
    requires DistinctAchievementIds(x) && DistinctAchievementIds(y) && Ids(x) !! Ids(y)
    ensures DistinctAchievementIds(x + y)
  {
    forall i, j | 0 <= i < j < |x + y|
      ensures (x + y)[i].id != (x + y)[j].id
    {
      if j < |x| {
        assert (x + y)[i] == x[i] && (x + y)[j] == x[j];
      } else if i >= |x| {
        assert (x + y)[i] == y[i - |x|] && (x + y)[j] == y[j - |x|];
      } else {
        assert (x + y)[i] == x[i] && (x + y)[j] == y[j - |x|];
        assert x[i].id in Ids(x) && y[j - |x|].id in Ids(y);
      }
    }
  }

  /** A tier over definitions with distinct ids adds achievements with
      distinct ids. */
  lemma {:induction false} TierAwardsDistinct(defs: seq<AchievementDefinition>, held: set<string>, stat: real, now: int)
    requires DistinctIds(defs)
    ensures DistinctAchievementIds(TierAwards(defs, held, stat, now))
    decreases |defs|
  {
    if defs != [] {
      var prefix := defs[..|defs| - 1];
      var last := defs[|defs| - 1];
      assert DistinctIds(prefix) by {
        forall i, j | 0 <= i < j < |prefix|
          ensures prefix[i].id != prefix[j].id
        {
          assert prefix[i] == defs[i] && prefix[j] == defs[j];
        }
      }
      TierAwardsDistinct(prefix, held, stat, now);
      var prev := TierAwards(prefix, held, stat, now);
      if Qualifies(last, held, stat) {
        forall x | x in Ids(prev)
          ensures x != last.id
        {
          var a :| a in prev && a.id == x;
          var d :| d in prefix && Qualifies(d, held, stat) && a == Unlock(d, now);
          var k :| 0 <= k < |prefix| && prefix[k] == d;
          assert defs[k] == d;
        }
        DistinctAppend(prev, [Unlock(last, now)]);
      }
    }
  }

  /** The ids a tier of one kind can add. */
  lemma TierIds(defs: seq<AchievementDefinition>, kind: AchievementType, held: set<string>, stat: real,
                now: int, x: string)
    requires x in Ids(TierAwards(OfKind(defs, kind), held, stat, now))
    ensures exists d :: d in defs && d.kind == kind && d.id == x
  {
    var a :| a in TierAwards(OfKind(defs, kind), held, stat, now) && a.id == x;
  }

  /** In a list with distinct ids, an id names at most one definition. */
  lemma SameIdSameDefinition(defs: seq<AchievementDefinition>, d: AchievementDefinition, e: AchievementDefinition)
    requires DistinctIds(defs) && d in defs && e in defs && d.id == e.id
    ensures d == e
  {
    var i :| 0 <= i < |defs| && defs[i] == d;
    var j :| 0 <= j < |defs| && defs[j] == e;
    assert i == j;
  }

  lemma KindsDisjoint(defs: seq<AchievementDefinition>, k1: AchievementType, k2: AchievementType,
                      held: set<string>, s1: real, s2: real, now: int)
    requires DistinctIds(defs) && k1 != k2
    ensures Ids(TierAwards(OfKind(defs, k1), held, s1, now)) !! Ids(TierAwards(OfKind(defs, k2), held, s2, now))
  {
    forall x | x in Ids(TierAwards(OfKind(defs, k1), held, s1, now))
      ensures x !in Ids(TierAwards(OfKind(defs, k2), held, s2, now))
    {
      TierIds(defs, k1, held, s1, now, x);
      var d1 :| d1 in defs && d1.kind == k1 && d1.id == x;
      forall e | e in defs && e.id == x
        ensures e.kind == k1
      {
        SameIdSameDefinition(defs, d1, e);
      }
      if x in Ids(TierAwards(OfKind(defs, k2), held, s2, now)) {
        TierIds(defs, k2, held, s2, now, x);
      }
    }
  }

  lemma TierNotWeather(kind: AchievementType, held: set<string>, stat: real, now: int)
    requires IsTierKind(kind)
    ensures "weather_snow" !in Ids(TierAwards(OfKind(Definitions, kind), held, stat, now))
    ensures "weather_rain" !in Ids(TierAwards(OfKind(Definitions, kind), held, stat, now))
  {
    forall x | x in Ids(TierAwards(OfKind(Definitions, kind), held, stat, now))
      ensures x != "weather_snow" && x != "weather_rain"
    {
      TierIds(Definitions, kind, held, stat, now, x);
      var d :| d in Definitions && d.kind == kind && d.id == x;
      if x == "weather_snow" {
        DefinitionById(d, WeatherSnow);
      }
      if x == "weather_rain" {
        DefinitionById(d, WeatherRain);
      }
    }
  }

  lemma WeatherBadgeIds(condition: string, held: set<string>, keyword: string, badgeId: string, now: int)
    ensures Ids(WeatherBadge(Definitions, condition, held, keyword, badgeId, now)) <= {badgeId}
    ensures |WeatherBadge(Definitions, condition, held, keyword, badgeId, now)| <= 1
  {
  }

  /** The groups as declared have distinct ids. */
  lemma DeclaredGroupsDistinct()
    ensures DistinctIds(DistanceDefinitions) && DistinctIds(RouteDefinitions) && DistinctIds(LocationDefinitions)
  {
    var g := DistanceDefinitions;
    assert g[0].id != g[1].id && g[0].id != g[2].id && g[1].id != g[2].id;
    assert RouteDefinitions[0].id != RouteDefinitions[1].id;
    assert LocationDefinitions[0].id != LocationDefinitions[1].id;
  }

  lemma DistanceGroupDistinct()
    ensures DistinctIds(OfKind(Definitions, DistanceType))
  {
    DistanceGroup();
    DeclaredGroupsDistinct();
  }

  lemma RouteGroupDistinct()
    ensures DistinctIds(OfKind(Definitions, RoutesCompleted))
  {
    RouteGroup();
    DeclaredGroupsDistinct();
  }

  lemma LocationGroupDistinct()
    ensures DistinctIds(OfKind(Definitions, UniqueLocations))
  {
    LocationGroup();
    DeclaredGroupsDistinct();
  }

  lemma IdsAppend(x: seq<Achievement>, y: seq<Achievement>)
    ensures Ids(x + y) == Ids(x) + Ids(y)
  {
    assert forall a :: a in x + y <==> a in x || a in y;
  }

  lemma FivePartsDistinct(p1: seq<Achievement>, p2: seq<Achievement>, p3: seq<Achievement>,
                          p4: seq<Achievement>, p5: seq<Achievement>)
    requires DistinctAchievementIds(p1) && DistinctAchievementIds(p2) && DistinctAchievementIds(p3)
    requires Ids(p1) !! Ids(p2) && Ids(p1) !! Ids(p3) && Ids(p2) !! Ids(p3)
    requires Ids(p4) <= {"weather_snow"} && Ids(p5) <= {"weather_rain"} && |p4| <= 1 && |p5| <= 1
    requires "weather_snow" !in Ids(p1) + Ids(p2) + Ids(p3)
    requires "weather_rain" !in Ids(p1) + Ids(p2) + Ids(p3)
    ensures DistinctAchievementIds(p1 + p2 + p3 + p4 + p5)
  {
    DistinctAppend(p1, p2);
    IdsAppend(p1, p2);
    DistinctAppend(p1 + p2, p3);
    IdsAppend(p1 + p2, p3);
    DistinctAppend(p1 + p2 + p3, p4);
    IdsAppend(p1 + p2 + p3, p4);
    DistinctAppend(p1 + p2 + p3 + p4, p5);
  }

  /** The achievements added in one call have distinct ids, and a profile
      list without repeated ids stays so once they are appended. */
  lemma NewIdsDistinct(profile: UserProfile, route: Route, distanceStat: real, now: int)
    ensures DistinctAchievementIds(NewAchievements(Definitions, profile, route, distanceStat, now))
    ensures DistinctAchievementIds(profile.achievements) ==>
              DistinctAchievementIds(profile.achievements + NewAchievements(Definitions, profile, route, distanceStat, now))
  {
    var held := Ids(profile.achievements);
    var s1, s2, s3 := distanceStat, profile.completedRoutes as real, profile.statistics.uniqueLocationsVisited as real;
    var p1 := TierAwards(OfKind(Definitions, DistanceType), held, s1, now);
    var p2 := TierAwards(OfKind(Definitions, RoutesCompleted), held, s2, now);
    var p3 := TierAwards(OfKind(Definitions, UniqueLocations), held, s3, now);
    var p4 := WeatherBadge(Definitions, route.weatherCondition, held, "snow", "weather_snow", now);
    var p5 := WeatherBadge(Definitions, route.weatherCondition, held, "rain", "weather_rain", now);
    DistanceGroupDistinct();
    RouteGroupDistinct();
    LocationGroupDistinct();
    TierAwardsDistinct(OfKind(Definitions, DistanceType), held, s1, now);
    TierAwardsDistinct(OfKind(Definitions, RoutesCompleted), held, s2, now);
    TierAwardsDistinct(OfKind(Definitions, UniqueLocations), held, s3, now);
    DefinitionIdsDistinct();
    KindsDisjoint(Definitions, DistanceType, RoutesCompleted, held, s1, s2, now);
    KindsDisjoint(Definitions, DistanceType, UniqueLocations, held, s1, s3, now);
    KindsDisjoint(Definitions, RoutesCompleted, UniqueLocations, held, s2, s3, now);
    TierNotWeather(DistanceType, held, s1, now);
    TierNotWeather(RoutesCompleted, held, s2, now);
    TierNotWeather(UniqueLocations, held, s3, now);
    WeatherBadgeIds(route.weatherCondition, held, "snow", "weather_snow", now);
    WeatherBadgeIds(route.weatherCondition, held, "rain", "weather_rain", now);
    FivePartsDistinct(p1, p2, p3, p4, p5);
    assert NewAchievements(Definitions, profile, route, distanceStat, now) == p1 + p2 + p3 + p4 + p5;
    NeverReawarded(Definitions, profile, route, distanceStat, now);
    if DistinctAchievementIds(profile.achievements) {
      DistinctAppend(profile.achievements, p1 + p2 + p3 + p4 + p5);
    }
  }

  // ---------------------------------------------------------------------------
  // checkStreak

  /** `TimeUnit.DAYS.toMillis(1)`. */
  const DayMillis: int := 86400000

  const ParseFailure: string := "NumberFormatException"

  predicate SortedDescending(s: seq<int>) {
    forall i, j :: 0 <= i < j < |s| ==> s[i] >= s[j]
  }

  function InsertDescending(x: int, s: seq<int>): (r: seq<int>)
    requires SortedDescending(s)
    ensures SortedDescending(r)
    ensures multiset(r) == multiset(s) + multiset{x}
  {
    if s == [] then [x]
    else if x >= s[0] then [x] + s
    else
      var rest := InsertDescending(x, s[1..]);
      assert s == [s[0]] + s[1..];
      BelowHead(x, s, rest);
      [s[0]] + rest
  }

  /** Inserting below the head of a descending list stays below the head. */
  lemma BelowHead(x: int, s: seq<int>, rest: seq<int>)
    requires SortedDescending(s) && s != [] && x < s[0]
    requires multiset(rest) == multiset(s[1..]) + multiset{x}
    ensures forall j :: 0 <= j < |rest| ==> rest[j] <= s[0]
  {
    forall j | 0 <= j < |rest|
      ensures rest[j] <= s[0]
    {
      assert rest[j] in multiset(rest);
      if rest[j] != x {
        assert rest[j] in multiset(s[1..]);
        var k :| 0 <= k < |s[1..]| && s[1..][k] == rest[j];
        assert s[k + 1] == rest[j];
      }
    }
  }

  /** `sortedDescending()`. */
  function SortDescending(xs: seq<int>): (r: seq<int>)
    ensures SortedDescending(r)
    ensures multiset(r) == multiset(xs)
  {
    if xs == [] then []
    else
      assert xs == [xs[0]] + xs[1..];
      InsertDescending(xs[0], SortDescending(xs[1..]))
  }

  /** `map { it.toLong() }` over keys taken in the order `keys`: `None` when
      some key is not a number (the call throws). */
  function ParseAll(keys: seq<string>): (r: Option<seq<int>>)
    ensures r.None? <==> exists i :: 0 <= i < |keys| && ParseLong(keys[i]).None?
    ensures r.Some? ==> |r.value| == |keys| && forall i :: 0 <= i < |keys| ==> ParseLong(keys[i]) == Some(r.value[i])
  {
    if keys == [] then Some([])
    else
      var init := ParseAll(keys[..|keys| - 1]);
      var last := ParseLong(keys[|keys| - 1]);
      if init.None? || last.None? then None else Some(init.value + [last.value])
  }

  /** `order` lists the key set, each key once. */
  ghost predicate Enumerates(order: seq<string>, keys: set<string>) {
    && (forall i, j :: 0 <= i < j < |order| ==> order[i] != order[j])
    && (forall k :: k in keys <==> k in order)
  }

  /** `dates` are the key set parsed (taken in some order) and sorted in
      descending order. */
  ghost predicate RouteDatesOf(keys: set<string>, dates: seq<int>) {
    && SortedDescending(dates)
    && exists order :: Enumerates(order, keys) && ParseAll(order).Some? && multiset(ParseAll(order).value) == multiset(dates)
  }

  /** The dates `checkStreak` reads: the keys of `monthlyDistance` parsed as
      numbers and sorted newest first; a key that is not a number throws. */
  method RouteDates(keys: set<string>) returns (dates: Result<seq<int>, string>)
    ensures dates.Failure? <==> exists k :: k in keys && ParseLong(k).None?
    ensures dates.Failure? ==> dates.error == ParseFailure
    ensures dates.Success? ==> RouteDatesOf(keys, dates.value)
  {
    var rest := keys;
    var values: seq<int> := [];
    ghost var order: seq<string> := [];
    while rest != {}
      invariant rest <= keys
      invariant forall k :: k in keys <==> k in rest || k in order
      invariant forall k :: k in order ==> k !in rest
      invariant forall i, j :: 0 <= i < j < |order| ==> order[i] != order[j]
      invariant ParseAll(order) == Some(values)
      decreases rest
    {
      var k :| k in rest;
      var value := ParseLong(k);
      if value.None? {
        return Failure(ParseFailure);
      }
      assert (order + [k])[..|order|] == order;
      order := order + [k];
      values := values + [value.value];
      rest := rest - {k};
    }
    forall k | k in keys
      ensures ParseLong(k).Some?
    {
      var i :| 0 <= i < |order| && order[i] == k;
    }
    dates := Success(SortDescending(values));
    assert Enumerates(order, keys);
  }

  /** How many dates, newest first, follow each other (starting from
      `previous`) with gaps of at most one day. */
  function StreakFrom(dates: seq<int>, previous: int): (r: nat)
    ensures r <= |dates|
  {
    if dates == [] || previous - dates[0] > DayMillis then 0
    else 1 + StreakFrom(dates[1..], dates[0])
  }

  /** The date the `i`-th date is compared with: `now` for the first, the
      one before it otherwise. */
  function Before(dates: seq<int>, now: int, i: int): int
    requires 0 <= i < |dates|
  {
    if i == 0 then now else dates[i - 1]
  }

  /** The streak is the longest run of dates, from the newest, each within
      one day (inclusive) of the one before, starting from `now`. */
  lemma {:induction false} StreakIsLongestRun(dates: seq<int>, now: int)
    ensures var r := StreakFrom(dates, now);
            && 0 <= r <= |dates|
            && (forall i :: 0 <= i < r ==> Before(dates, now, i) - dates[i] <= DayMillis)
            && (r < |dates| ==> Before(dates, now, r) - dates[r] > DayMillis)
    decreases |dates|
  {
    if dates != [] && now - dates[0] <= DayMillis {
      StreakIsLongestRun(dates[1..], dates[0]);
      var r := StreakFrom(dates, now);
      forall i | 0 <= i < r
        ensures Before(dates, now, i) - dates[i] <= DayMillis
      {
        if i > 0 {
          assert Before(dates[1..], dates[0], i - 1) == Before(dates, now, i);
        }
      }
      if r < |dates| {
        assert Before(dates[1..], dates[0], r - 1) == Before(dates, now, r);
      }
    }
  }

  /** The `for` loop of `checkStreak`, with its `break`. */
  method StreakLength(dates: seq<int>, now: int) returns (streak: nat)
    ensures streak == StreakFrom(dates, now)
  {
    streak := 0;
    var previousDate := now;
    var i := 0;
    while i < |dates|
      invariant 0 <= i <= |dates| && streak == i
      invariant StreakFrom(dates, now) == i + StreakFrom(dates[i..], previousDate)
      invariant i > 0 ==> previousDate == dates[i - 1]
    {
      var date := dates[i];
      if previousDate - date <= DayMillis {
        assert dates[i..][1..] == dates[i + 1..];
        streak := streak + 1;
        previousDate := date;
        i := i + 1;
      } else {
        break;
      }
    }
  }

  /** The writes of `checkStreak` for a streak: one per qualifying
      definition, in order, each the profile's original list plus that one
      achievement. */
  function StreakWrites(defs: seq<AchievementDefinition>, achievements: seq<Achievement>, streak: int, now: int)
    : (writes: seq<seq<Achievement>>)
    ensures |writes| <= |defs|
    ensures forall w :: w in writes <==>
              exists d :: d in defs && Qualifies(d, Ids(achievements), streak as real) && w == achievements + [Unlock(d, now)]
  {
    if defs == [] then []
    else
      var last := defs[|defs| - 1];
      StreakWrites(defs[..|defs| - 1], achievements, streak, now)
        + (if Qualifies(last, Ids(achievements), streak as real) then [achievements + [Unlock(last, now)]] else [])
  }

  /** `checkStreak` over the definition list `defs`: the lists it writes,
      in order (none without a profile); a date key that is not a number
      throws before anything is written. */
  method CheckStreak(defs: seq<AchievementDefinition>, profile: Option<UserProfile>, now: int)
    returns (result: Result<seq<seq<Achievement>>, string>)
    ensures profile.None? ==> result == Success([])
    ensures profile.Some? ==>
              var keys := profile.value.statistics.monthlyDistance.Keys;
              && (result.Failure? <==> exists k :: k in keys && ParseLong(k).None?)
              && (result.Success? ==>
                    exists dates :: RouteDatesOf(keys, dates)
                      && result.value == StreakWrites(OfKind(defs, Streak), profile.value.achievements,
                                                      StreakFrom(dates, now), now))
  {
    if profile.None? {
      return Success([]);
    }
    var userProfile := profile.value;
    var routeDates := RouteDates(userProfile.statistics.monthlyDistance.Keys);
    if routeDates.Failure? {
      return Failure(routeDates.error);
    }
    var dates := routeDates.value;
    var currentStreak := StreakLength(dates, now);
    var writes := WriteStreakBadges(OfKind(defs, Streak), userProfile.achievements, currentStreak, now);
    assert RouteDatesOf(userProfile.statistics.monthlyDistance.Keys, dates);
    return Success(writes);
  }

  /** The `forEach` over the streak definitions of `checkStreak`: one write
      per badge earned. */
  method WriteStreakBadges(streakDefs: seq<AchievementDefinition>, achievements: seq<Achievement>,
                           currentStreak: int, now: int)
    returns (writes: seq<seq<Achievement>>)
    ensures writes == StreakWrites(streakDefs, achievements, currentStreak, now)
  {
    var held := Ids(achievements);
    writes := [];
    for i := 0 to |streakDefs|
      invariant writes == StreakWrites(streakDefs[..i], achievements, currentStreak, now)
    {
      assert streakDefs[..i + 1][..i] == streakDefs[..i];
      var d := streakDefs[i];
      if d.id !in held && currentStreak as real >= d.threshold as real {
        writes := writes + [achievements + [Unlock(d, now)]];
      }
    }
    assert streakDefs[..|streakDefs|] == streakDefs;
  }

  /** Over the manager's list, `checkStreak` writes at most twice: the
      original list plus streak_7, then the original list plus streak_30. */
  lemma StreakWritesOfDefinitions(achievements: seq<Achievement>, streak: int, now: int)
    ensures StreakWrites(OfKind(Definitions, Streak), achievements, streak, now)
            == (if Qualifies(Streak7, Ids(achievements), streak as real) then [achievements + [Unlock(Streak7, now)]] else [])
               + (if Qualifies(Streak30, Ids(achievements), streak as real) then [achievements + [Unlock(Streak30, now)]] else [])
  {
    StreakGroup();
    StreakWritesOfPair(Streak7, Streak30, achievements, streak, now);
  }

  /** `StreakWrites` over a two-element list, unfolded. */
  lemma StreakWritesOfPair(a: AchievementDefinition, b: AchievementDefinition, achievements: seq<Achievement>,
                           streak: int, now: int)
    ensures StreakWrites([a, b], achievements, streak, now)
            == (if Qualifies(a, Ids(achievements), streak as real) then [achievements + [Unlock(a, now)]] else [])
               + (if Qualifies(b, Ids(achievements), streak as real) then [achievements + [Unlock(b, now)]] else [])
  {
    assert [a, b][..1] == [a];
    assert [a][..0] == [];
  }

  /** A streak under seven days writes nothing. */
  lemma ShortStreakWritesNothing(achievements: seq<Achievement>, streak: int, now: int)
    requires streak < 7
    ensures StreakWrites(OfKind(Definitions, Streak), achievements, streak, now) == []
  {
    StreakWritesOfDefinitions(achievements, streak, now);
  }

  /** When both streak badges qualify, both writes happen and the last one,
      which the profile keeps, has streak_30 but not streak_7. */
  lemma LastStreakWriteWins(achievements: seq<Achievement>, streak: int, now: int)
    requires streak >= 30
    requires "streak_7" !in Ids(achievements) && "streak_30" !in Ids(achievements)
    ensures var writes := StreakWrites(OfKind(Definitions, Streak), achievements, streak, now);
            && |writes| == 2
            && "streak_7" in Ids(writes[0])
            && "streak_30" in Ids(writes[1]) && "streak_7" !in Ids(writes[1])
  {
    StreakGroup();
    assert Streak7.id != Streak30.id;
    BothQualifyTwoWrites(Streak7, Streak30, achievements, streak, now);
  }

  /** When both of two badges with different ids qualify, the second write
      holds the second badge and not the first. */
  lemma BothQualifyTwoWrites(a: AchievementDefinition, b: AchievementDefinition, achievements: seq<Achievement>,
                             streak: int, now: int)
    requires a.id != b.id
    requires Qualifies(a, Ids(achievements), streak as real) && Qualifies(b, Ids(achievements), streak as real)
    ensures var writes := StreakWrites([a, b], achievements, streak, now);
            && |writes| == 2
            && a.id in Ids(writes[0])
            && b.id in Ids(writes[1]) && a.id !in Ids(writes[1])
  {
    StreakWritesOfPair(a, b, achievements, streak, now);
    var ua, ub := Unlock(a, now), Unlock(b, now);
    assert ua in achievements + [ua];
    assert ub in achievements + [ub];
    IdsAppend(achievements, [ub]);
    assert Ids([ub]) == {b.id};
  }
}
