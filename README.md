# ItsYourTurn (Moscow walks): the decision rules, modelled in Dafny

ItsYourTurn is an Android app that plans walks around Moscow. Around its
Firebase, Room, Retrofit and UI plumbing sit a few decision rules and record
transformations. This project models them:

- **Route generator** (`RouteGenerationService`, module `RouteGeneration`).
  It has a weather gate and a walking budget of `duration * 83.0` metres. A
  Moscow local hour (outside 6..21) makes it night. A category and
  night-safety filter runs over a fixed catalogue of ten landmarks. Then a
  greedy walk goes to the nearest candidate while the leg fits the budget,
  and the legs are summed. The haversine distance is a parameter. The model
  assumes only two facts about it: it is never negative, and a point is at 0
  from itself. Where the walk's point repetition is named, a third fact is
  assumed: among the pool's locations, distance 0 means equal points. The walk runs on `fuel`, and
  `Generation.Diverged` is the case where the source loops for ever.
- **Notification weather rule** (`WeatherNotificationWorker.isWeatherSuitableForWalking`,
  module `WeatherNotification`). A second suitability rule. It is compared
  with the generator's rule.
- **Room records and converters** (`Entities.kt`, module `Entities`). These
  are `LocalRoute`, `LocalWaypoint`, the timestamp converters and the
  "lat,lon" text codec. `Double.toString` and `String.toDouble` are
  parameters.
- **Offline sync** (`OfflineSyncManager`, module `OfflineSync`). Routes map
  to Room rows and back. The Room tables are a class: a route table keyed
  by id, where an insert replaces and the foreign key cascades, and waypoint
  rows with store-assigned ids. The map-tile bounding box is also modelled.
- **Likes and activities** (`SocialRepository`, module `Social`). This is the
  guarded `(likes, likedBy)` update. The three Firestore collections are
  the fields of a class, keyed by document id.
- **Achievements** (`AchievementsManager`, module `Achievements`). This
  covers the twelve definitions, the threshold tiers and the weather badges
  of `checkAchievements`, and the list it writes back. It also covers the
  consecutive-day streak of `checkStreak` and the writes it makes.
- **Random route** (`RouteRepository.generateRoute`, module
  `RouteRepository`). The waypoint count uses Kotlin's truncating division,
  and waypoints get positional names. Their points lie in a half-open box
  around Moscow and their types come from the given list. Random draws are
  arbitrary choices within their ranges.

Shared pieces are in `model.dfy`, `text.dfy` and `wrappers.dfy`.
`model.dfy` has the app's records as datatypes. `text.dfy` has ASCII lower
case, substring search, `split`, `Long` parsing and decimal rendering.
`wrappers.dfy` has `Option` and `Result`.

Points of the code's behaviour that the model keeps as they are:

- A failed weather lookup is ignored and generation goes on.
- The candidate pool is never shrunk. After one accepted leg with budget to
  spare, the nearest candidate is the point just visited, at distance 0. The
  loop then appends it for ever and never returns. The model proves this
  (`WalkNeverStopsOnPoolEntry`, `WalkStopsIff`, `CatalogueWalkRepeatsFirstWaypoint`).
- The generated route's `weatherCondition` is never filled in, so it stays
  "".
- `checkAchievements` reads a distance field that the statistics record
  does not have. The distance statistic is therefore an input.

## Model

| member | source | states |
|---|---|---|
| RouteGeneration.IsWeatherSuitableForWalking | app/src/main/java/com/itsyourturn/moscow/data/service/RouteGenerationService.kt:164-171 | suitable iff -15 <= temperature <= 35 and the lower-cased condition is none of exactly "thunderstorm", "snow", "rain" |
| RouteGeneration.WeatherGateBoundaries | app/src/main/java/com/itsyourturn/moscow/data/service/RouteGenerationService.kt:164-171 | -15 and 35 degrees and "light rain" pass; -15.5 degrees, "Rain" and "ThunderStorm" are refused |
| RouteGeneration.IsNightTime | app/src/main/java/com/itsyourturn/moscow/data/service/RouteGenerationService.kt:173-179 | night iff the Moscow local hour is below 6 or above 21 |
| RouteGeneration.IsLocationSafeAtNight | app/src/main/java/com/itsyourturn/moscow/data/service/RouteGenerationService.kt:181-184 | safe iff the type is neither "park" nor "forest" |
| RouteGeneration.AvailablePois | app/src/main/java/com/itsyourturn/moscow/data/service/RouteGenerationService.kt:94-97 | the pool holds exactly the catalogue entries of a preferred type (or any type if none is preferred) that are safe at night when it is night |
| RouteGeneration.AvailablePoisInOrder | app/src/main/java/com/itsyourturn/moscow/data/service/RouteGenerationService.kt:94-97 | the pool keeps catalogue order: of two pool entries, the earlier one stands earlier in the catalogue |
| RouteGeneration.AvailablePoisDistinct | app/src/main/java/com/itsyourturn/moscow/data/service/RouteGenerationService.kt:94-97 | filtering keeps the entries' locations distinct |
| RouteGeneration.CatalogueLocationsDistinct | app/src/main/java/com/itsyourturn/moscow/data/service/RouteGenerationService.kt:25-36 | the ten landmarks stand at ten different points |
| RouteGeneration.NearestIndex | app/src/main/java/com/itsyourturn/moscow/data/service/RouteGenerationService.kt:126-131 | `minByOrNull` picks a minimal distance, and every earlier entry is strictly farther, so ties go to the earliest |
| RouteGeneration.FindNextPoi | app/src/main/java/com/itsyourturn/moscow/data/service/RouteGenerationService.kt:125-132 | none only for an empty pool; otherwise a pool entry at minimal distance, with every earlier entry strictly farther |
| RouteGeneration.WalkPool | app/src/main/java/com/itsyourturn/moscow/data/service/RouteGenerationService.kt:99-120 | the while loop yields the waypoints of the walk specification, and reports whether it was still running when the fuel ran out |
| RouteGeneration.GenerateWaypoints | app/src/main/java/com/itsyourturn/moscow/data/service/RouteGenerationService.kt:83-123 | the waypoints are the walk over the filtered catalogue from the start point with the given budget |
| RouteGeneration.CalculateTotalDistance | app/src/main/java/com/itsyourturn/moscow/data/service/RouteGenerationService.kt:149-162 | the total is the length of the path start -> w1 -> ... -> wn, and 0 with no waypoints |
| RouteGeneration.WalkLegsFromPool | app/src/main/java/com/itsyourturn/moscow/data/service/RouteGenerationService.kt:99-115 | every waypoint copies the location, name and type of a pool entry |
| RouteGeneration.WalkBudget | app/src/main/java/com/itsyourturn/moscow/data/service/RouteGenerationService.kt:99-120 | remaining budget + accepted path length = starting budget; a non-negative budget stays non-negative; a non-positive budget accepts nothing |
| RouteGeneration.PathLengthNonNegative | app/src/main/java/com/itsyourturn/moscow/data/service/RouteGenerationService.kt:149-162 | a path length is never negative |
| RouteGeneration.WalkNeverStopsOnPoolEntry | app/src/main/java/com/itsyourturn/moscow/data/service/RouteGenerationService.kt:94-120 | standing on a pool entry with budget left, every further step adds a leg of length 0, the budget never changes and the loop never ends |
| RouteGeneration.WalkRepeatsPoolEntry | app/src/main/java/com/itsyourturn/moscow/data/service/RouteGenerationService.kt:94-120 | with distinct locations that the distance separates, the entry repeated is the one the walk stands on |
| RouteGeneration.WalkStopsIff | app/src/main/java/com/itsyourturn/moscow/data/service/RouteGenerationService.kt:99-120 | the loop ends iff the pool is empty, the budget is not positive, or the first leg is at least the whole budget |
| RouteGeneration.WalkRepeatsFirstWaypoint | app/src/main/java/com/itsyourturn/moscow/data/service/RouteGenerationService.kt:94-120 | when the first leg fits with budget to spare, the walk never ends and is the first waypoint followed by copies of it |
| RouteGeneration.CatalogueWalkRepeatsFirstWaypoint | app/src/main/java/com/itsyourturn/moscow/data/service/RouteGenerationService.kt:94-120 | the same over the filtered catalogue, whatever the preferences and time of day |
| RouteGeneration.GenerateRoute | app/src/main/java/com/itsyourturn/moscow/data/service/RouteGenerationService.kt:39-81 | an exception gives Error(message or "Failed to generate route"); unsuitable successful weather gives the unsuitable-weather Error; a weather error is ignored; otherwise the route carries the walk's waypoints, their path length, the given start point, duration and types, is lit iff it is night, and has an empty weather condition; a walk that never ends never returns |
| RouteGeneration.GeneratedRouteFacts | app/src/main/java/com/itsyourturn/moscow/data/service/RouteGenerationService.kt:56-75 | the route distance is the budget consumed, 0 <= distance <= duration * 83.0 for a non-negative duration, a non-positive duration gives no waypoints, and every waypoint is a catalogue entry of a preferred type that is safe at night when it is night |
| WeatherNotification.IsWeatherSuitableForWalking | app/src/main/java/com/itsyourturn/moscow/service/NotificationScheduler.kt:89-93 | suitable iff 10 <= temperature <= 25 and the lower-cased condition contains neither "rain" nor "snow" |
| WeatherNotification.NotificationImpliesGeneratorGate | app/src/main/java/com/itsyourturn/moscow/service/NotificationScheduler.kt:89-93 | whatever this rule accepts, the generator's gate accepts too, unless the lower-cased condition is exactly "thunderstorm" |
| WeatherNotification.LightRainDiffers | app/src/main/java/com/itsyourturn/moscow/service/NotificationScheduler.kt:91 | "Light Rain" passes the generator's gate but not this rule |
| WeatherNotification.ThunderstormHasNoRainOrSnow | app/src/main/java/com/itsyourturn/moscow/service/NotificationScheduler.kt:91-92 | "thunderstorm" contains neither "rain" nor "snow", so neither keyword check fires on it |
| WeatherNotification.ThunderstormDiffers | app/src/main/java/com/itsyourturn/moscow/service/NotificationScheduler.kt:89-93 | "Thunderstorm" at a mild temperature passes this rule but not the generator's gate |
| WeatherNotification.DrizzleAtTenIsSuitable | app/src/main/java/com/itsyourturn/moscow/service/NotificationScheduler.kt:90 | "Drizzle" at exactly 10 degrees is suitable (inclusive bound) |
| WeatherNotification.ClearSkyRange | app/src/main/java/com/itsyourturn/moscow/service/NotificationScheduler.kt:90 | with a clear sky the rule is exactly the temperature range, both ends included |
| Entities.FromTimestamp | app/src/main/java/com/itsyourturn/moscow/data/local/Entities.kt:59-62 | null iff null; otherwise the date at those milliseconds |
| Entities.DateToTimestamp | app/src/main/java/com/itsyourturn/moscow/data/local/Entities.kt:64-67 | null iff null; otherwise the date's milliseconds |
| Entities.TimestampRoundTrip | app/src/main/java/com/itsyourturn/moscow/data/local/Entities.kt:59-67 | the two timestamp converters are inverse both ways |
| Entities.FromGeoPoint | app/src/main/java/com/itsyourturn/moscow/data/local/Entities.kt:80-83 | null iff null; otherwise the two rendered coordinates joined by a comma |
| Entities.ToGeoPoint | app/src/main/java/com/itsyourturn/moscow/data/local/Entities.kt:85-92 | null for null and for text without exactly one comma; throws iff there are two pieces and one is not a number; otherwise the point whose coordinates the pieces parse to |
| Entities.GeoTextHasOneComma | app/src/main/java/com/itsyourturn/moscow/data/local/Entities.kt:82 | a rendered point has exactly one comma |
| Entities.GeoPointRoundTrip | app/src/main/java/com/itsyourturn/moscow/data/local/Entities.kt:80-92 | reading back a rendered point (or null) gives it back, given that numbers round-trip as text |
| Entities.NonNumericPieceThrows | app/src/main/java/com/itsyourturn/moscow/data/local/Entities.kt:89 | "x,y" with a non-numeric side throws rather than giving null |
| Entities.WrongPieceCountGivesNull | app/src/main/java/com/itsyourturn/moscow/data/local/Entities.kt:87-90 | "", "1" and "1,2,3" give null |
| Text.Split | app/src/main/java/com/itsyourturn/moscow/data/local/Entities.kt:87 | `split(",")` gives one piece more than there are separators, and no piece holds one |
| Text.SplitJoined | app/src/main/java/com/itsyourturn/moscow/data/local/Entities.kt:87 | splitting a + "," + b, where neither side has a comma, gives exactly [a, b] |
| Text.ParseLong | app/src/main/java/com/itsyourturn/moscow/data/service/AchievementsManager.kt:237 | `toLong` accepts exactly an optional '+' or '-' followed by one or more ASCII digits whose signed value lies in the 64-bit range, and yields that signed value |
| Text.ParseLongOfSignedText | app/src/main/java/com/itsyourturn/moscow/data/service/AchievementsManager.kt:237 | a number in range written with an explicit sign parses back to that number |
| Text.ParseLongRefusesNonDigits | app/src/main/java/com/itsyourturn/moscow/data/service/AchievementsManager.kt:237 | a non-digit after the optional sign, an empty text and a lone sign are refused |
| Text.ParseLongOfNatToString | app/src/main/java/com/itsyourturn/moscow/data/service/AchievementsManager.kt:237 | decimal text of a number in range parses back to that number |
| Text.NatToStringRoundTrip | app/src/main/java/com/itsyourturn/moscow/data/repository/RouteRepository.kt:62 | decimal rendering reads back as the number rendered |
| Text.NatToStringInjective | app/src/main/java/com/itsyourturn/moscow/data/repository/RouteRepository.kt:62 | different numbers render differently |
| Text.ContainsIffOccurs | app/src/main/java/com/itsyourturn/moscow/service/NotificationScheduler.kt:91-92 | `contains` holds iff the text occurs at some position |
| OfflineSync.ToLocalRoute | app/src/main/java/com/itsyourturn/moscow/data/local/OfflineSyncManager.kt:21-37 | the row is marked downloaded, synced now, and a null start point is stored as (0.0, 0.0) |
| OfflineSync.ToLocalWaypoints | app/src/main/java/com/itsyourturn/moscow/data/local/OfflineSyncManager.kt:39-49 | one row per waypoint, in order, each carrying the route's id |
| OfflineSync.FromLocal | app/src/main/java/com/itsyourturn/moscow/data/local/OfflineSyncManager.kt:62-85 | the rebuilt route always has a start point, the stored coordinates, and one waypoint per row |
| OfflineSync.MappingRoundTrip | app/src/main/java/com/itsyourturn/moscow/data/local/OfflineSyncManager.kt:20-86 | rebuilding the stored rows gives the route back field for field, whatever row ids the store assigned, except that a null start point comes back as (0.0, 0.0) |
| OfflineSync.RowsFor | app/src/main/java/com/itsyourturn/moscow/data/local/Daos.kt:32-33 | the rows selected for a route are exactly the rows carrying its id |
| OfflineSync.RemoveRows | app/src/main/java/com/itsyourturn/moscow/data/local/Entities.kt:33-42 | deleting a route row leaves exactly the waypoint rows of other routes |
| OfflineSync.AfterDownload | app/src/main/java/com/itsyourturn/moscow/data/local/OfflineSyncManager.kt:51-52 | the route table maps the id to the new row, and every waypoint row still belongs to a stored route |
| OfflineSync.ReadRoute | app/src/main/java/com/itsyourturn/moscow/data/local/OfflineSyncManager.kt:58-60 | null iff no route row has that id |
| OfflineSync.DownloadThenRead | app/src/main/java/com/itsyourturn/moscow/data/local/OfflineSyncManager.kt:20-86 | downloading a route and reading it back gives the route (null start point as (0.0, 0.0)), whether or not it was stored before |
| OfflineSync.DownloadKeepsOthers | app/src/main/java/com/itsyourturn/moscow/data/local/OfflineSyncManager.kt:51-52 | a download leaves every other stored route reading as before |
| OfflineSync.RemoveRowsKeepsOthers | app/src/main/java/com/itsyourturn/moscow/data/local/Entities.kt:33-42 | the cascade does not touch the rows of other routes |
| OfflineSync.BoundingBox | app/src/main/java/com/itsyourturn/moscow/data/local/OfflineSyncManager.kt:88-103 | none iff there is no start point and no waypoint (`minOf` throws); otherwise the box holds every point, and each of its four bounds is some point's coordinate |
| OfflineSync.OfflineSyncManager.DownloadRoute | app/src/main/java/com/itsyourturn/moscow/data/local/OfflineSyncManager.kt:20-56 | the tables become those after the download (rows of an earlier copy removed by the cascade); the call fails after the inserts iff the route has no point at all |
| OfflineSync.OfflineSyncManager.GetOfflineRoute | app/src/main/java/com/itsyourturn/moscow/data/local/OfflineSyncManager.kt:58-86 | null iff no route row has that id; otherwise the route rebuilt from its rows |
| Social.LikeUpdate | app/src/main/java/com/itsyourturn/moscow/data/repository/SocialRepository.kt:104-112 | the user ends up in `likedBy`, which only grows by at most that user at the end; `likes - size of likedBy` is kept; nothing changes iff the user was listed |
| Social.LikeIdempotent | app/src/main/java/com/itsyourturn/moscow/data/repository/SocialRepository.kt:105-112 | two likes by the same user leave what one leaves |
| Social.LikeKeepsNoDuplicates | app/src/main/java/com/itsyourturn/moscow/data/repository/SocialRepository.kt:104-111 | a duplicate-free `likedBy` stays duplicate-free |
| Social.LikeAllKeepsCount | app/src/main/java/com/itsyourturn/moscow/data/repository/SocialRepository.kt:104-111 | from likes = size of likedBy with no duplicates, any run of likes keeps both, and `likedBy` ends up as the earlier likers plus the new ones |
| Social.WithIdAndTime | app/src/main/java/com/itsyourturn/moscow/data/repository/SocialRepository.kt:153-160 | the stored activity gets the new id and the current time; every other field is unchanged |
| Social.ReviewLikedActivity | app/src/main/java/com/itsyourturn/moscow/data/repository/SocialRepository.kt:114-124 | a REVIEW_LIKED activity by the liker on the review's route, whose metadata has exactly reviewId and reviewUserId |
| Social.SocialRepository.AddActivity | app/src/main/java/com/itsyourturn/moscow/data/repository/SocialRepository.kt:153-160 | one activity stored under the new id; reviews and photos unchanged |
| Social.SocialRepository.LikeReview | app/src/main/java/com/itsyourturn/moscow/data/repository/SocialRepository.kt:100-126 | a missing review or a repeated like changes nothing; otherwise only that review's likes and likedBy change (as LikeUpdate) and exactly one REVIEW_LIKED activity is stored |
| Social.SocialRepository.LikePhoto | app/src/main/java/com/itsyourturn/moscow/data/repository/SocialRepository.kt:128-142 | as for reviews, but no activity is ever recorded |
| Achievements.OfKind | app/src/main/java/com/itsyourturn/moscow/data/service/AchievementsManager.kt:141 | the filter keeps exactly the definitions of that kind |
| Achievements.FindById | app/src/main/java/com/itsyourturn/moscow/data/service/AchievementsManager.kt:195 | `find` gives a definition with that id, and none only if no definition has it |
| Achievements.DefinitionIdsDistinct | app/src/main/java/com/itsyourturn/moscow/data/service/AchievementsManager.kt:11-131 | the twelve definitions have twelve different ids |
| Achievements.DistanceGroup | app/src/main/java/com/itsyourturn/moscow/data/service/AchievementsManager.kt:13-39 | the DISTANCE definitions are distance_10km, distance_50km, distance_100km, in that order |
| Achievements.RouteGroup | app/src/main/java/com/itsyourturn/moscow/data/service/AchievementsManager.kt:42-59 | the ROUTES_COMPLETED definitions are routes_10, routes_50 |
| Achievements.LocationGroup | app/src/main/java/com/itsyourturn/moscow/data/service/AchievementsManager.kt:62-79 | the UNIQUE_LOCATIONS definitions are locations_20, locations_50 |
| Achievements.StreakGroup | app/src/main/java/com/itsyourturn/moscow/data/service/AchievementsManager.kt:113-130 | the STREAK definitions are streak_7, streak_30 |
| Achievements.DefinitionById | app/src/main/java/com/itsyourturn/moscow/data/service/AchievementsManager.kt:11-131 | a definition is the only one with its id |
| Achievements.FindDefinition | app/src/main/java/com/itsyourturn/moscow/data/service/AchievementsManager.kt:195 | looking up a definition's id finds that definition |
| Achievements.TierAwards | app/src/main/java/com/itsyourturn/moscow/data/service/AchievementsManager.kt:141-155 | a tier adds exactly the unlocks of its definitions that are not held and whose threshold the statistic reaches |
| Achievements.AwardTier | app/src/main/java/com/itsyourturn/moscow/data/service/AchievementsManager.kt:141-155 | the forEach loop adds what TierAwards specifies, in order |
| Achievements.AwardWeather | app/src/main/java/com/itsyourturn/moscow/data/service/AchievementsManager.kt:192-206 | one weather check adds at most one achievement; it adds one iff the lower-cased condition contains the keyword, the badge is not held and it is defined, and what it adds is that definition unlocked at `now` |
| Achievements.CheckAchievements | app/src/main/java/com/itsyourturn/moscow/data/service/AchievementsManager.kt:133-229 | no profile means no write; otherwise a write happens iff something is new, and it is the old list followed by the new ones (distance, routes, locations, snow, rain) |
| Achievements.NewOrigin | app/src/main/java/com/itsyourturn/moscow/data/service/AchievementsManager.kt:141-222 | every added achievement unlocks a definition that is not held and is earned |
| Achievements.NeverReawarded | app/src/main/java/com/itsyourturn/moscow/data/service/AchievementsManager.kt:142-209 | no added id is already held |
| Achievements.AwardedIff | app/src/main/java/com/itsyourturn/moscow/data/service/AchievementsManager.kt:141-222 | a definition is added iff it is not held and either it is a distance, routes or locations tier whose statistic reached its threshold, or it is the snow or rain badge and the lower-cased condition contains "snow" or "rain" |
| Achievements.NotAwardedByCheck | app/src/main/java/com/itsyourturn/moscow/data/service/AchievementsManager.kt:102-110 | night_walker, streak_7 and streak_30 are never added by this check |
| Achievements.ThresholdsAscend | app/src/main/java/com/itsyourturn/moscow/data/service/AchievementsManager.kt:13-130 | within each tier kind the thresholds strictly ascend |
| Achievements.TiersMonotone | app/src/main/java/com/itsyourturn/moscow/data/service/AchievementsManager.kt:141-189 | when a higher tier is added, every lower tier of its kind is held or added in the same call |
| Achievements.NoWeatherBadgeWithoutCondition | app/src/main/java/com/itsyourturn/moscow/data/service/AchievementsManager.kt:192-222 | a route with an empty weather condition, which is what every generated route has, earns no weather badge |
| Achievements.TierAwardsDistinct | app/src/main/java/com/itsyourturn/moscow/data/service/AchievementsManager.kt:141-155 | a tier over distinct ids adds distinct ids |
| Achievements.NewIdsDistinct | app/src/main/java/com/itsyourturn/moscow/data/service/AchievementsManager.kt:225-228 | the added ids are distinct, and a written list stays free of repeated ids if the old one was |
| Achievements.InsertDescending | app/src/main/java/com/itsyourturn/moscow/data/service/AchievementsManager.kt:238 | inserting into a descending list keeps it descending and adds exactly that element |
| Achievements.SortDescending | app/src/main/java/com/itsyourturn/moscow/data/service/AchievementsManager.kt:238 | `sortedDescending` gives a descending permutation of its input |
| Achievements.ParseAll | app/src/main/java/com/itsyourturn/moscow/data/service/AchievementsManager.kt:237 | fails iff some key is not a number; otherwise one parsed value per key, in order |
| Achievements.RouteDates | app/src/main/java/com/itsyourturn/moscow/data/service/AchievementsManager.kt:236-238 | throws (NumberFormatException) iff some key is not a number; otherwise the keys' values, each key once, sorted newest first |
| Achievements.StreakFrom | app/src/main/java/com/itsyourturn/moscow/data/service/AchievementsManager.kt:240-250 | the streak never exceeds the number of dates |
| Achievements.StreakIsLongestRun | app/src/main/java/com/itsyourturn/moscow/data/service/AchievementsManager.kt:240-250 | the streak is the longest run of dates, from now backwards, each at most 86,400,000 ms (inclusive) after the next; the first date past it is more than a day away |
| Achievements.StreakLength | app/src/main/java/com/itsyourturn/moscow/data/service/AchievementsManager.kt:240-250 | the loop with its break computes the streak |
| Achievements.StreakWrites | app/src/main/java/com/itsyourturn/moscow/data/service/AchievementsManager.kt:253-268 | the writes are exactly "original list + unlock" for each streak definition that is not held and whose threshold the streak reaches |
| Achievements.WriteStreakBadges | app/src/main/java/com/itsyourturn/moscow/data/service/AchievementsManager.kt:253-268 | the loop over the streak definitions makes exactly the writes StreakWrites specifies, in order |
| Achievements.CheckStreak | app/src/main/java/com/itsyourturn/moscow/data/service/AchievementsManager.kt:231-269 | no profile means no write; a non-numeric date key throws before any write; otherwise the writes are StreakWrites of the streak over the sorted dates |
| Achievements.StreakWritesOfDefinitions | app/src/main/java/com/itsyourturn/moscow/data/service/AchievementsManager.kt:253-267 | at most two writes: original + streak_7, then original + streak_30 |
| Achievements.ShortStreakWritesNothing | app/src/main/java/com/itsyourturn/moscow/data/service/AchievementsManager.kt:253-256 | a streak under 7 writes nothing |
| Achievements.LastStreakWriteWins | app/src/main/java/com/itsyourturn/moscow/data/service/AchievementsManager.kt:253-267 | when both qualify, there are two writes and the last one, which the profile keeps, has streak_30 but not streak_7 |
| RouteRepository.WaypointCount | app/src/main/java/com/itsyourturn/moscow/data/repository/RouteRepository.kt:53 | the count truncates toward zero: 15n <= duration < 15(n+1) for a non-negative duration, 15(n-1) < duration <= 15n for a negative one, and n >= 1 iff duration >= 15 |
| RouteRepository.TruncationDiffersOnNegatives | app/src/main/java/com/itsyourturn/moscow/data/repository/RouteRepository.kt:53-55 | -1 minutes gives a count of 0, where rounding down would give -1; -16 gives -1, not -2 |
| RouteRepository.WaypointNamesDistinct | app/src/main/java/com/itsyourturn/moscow/data/repository/RouteRepository.kt:62 | "Waypoint i+1" names are distinct |
| RouteRepository.GenerateWaypoints | app/src/main/java/com/itsyourturn/moscow/data/repository/RouteRepository.kt:44-69 | throws iff there are no place types and at least one waypoint is due; otherwise max(0, count) waypoints, waypoint i named "Waypoint i+1", inside the half-open box, with a type from the list |
| RouteRepository.GenerateRoute | app/src/main/java/com/itsyourturn/moscow/data/repository/RouteRepository.kt:14-42 | fails iff there are no place types and duration >= 15; otherwise the route keeps the start point, duration and types, is lit iff it is night time, has distance 0.0, and its waypoints lie in latitude [55.5741, 55.9578) and longitude [37.2824, 37.9465) |

## Left out

- Haversine trigonometry and floating point: the distance is a parameter
  with the laws above. Kotlin `Double`/`Float` are exact `real`s, so
  rounding, NaN and infinities are not modelled.
- Converting epoch milliseconds to the Moscow hour needs zone data. The
  local hour is an input. The notification worker's initial-delay
  computation is not modelled.
- Route ids, `Random.nextInt`, document ids and `System.currentTimeMillis()`
  are parameters.
- Achievements.CheckAchievements: every unlock in one call gets the same
  timestamp `now`. The source reads the clock once per unlock.
- Achievements.CheckStreak: one `now` is both the day the streak is
  counted from and the `unlockedAt` of every streak badge. The source
  reads the clock separately for each (AchievementsManager.kt:241 and :262).
- Firestore, Room, Firebase Auth and Storage I/O are left out. This covers
  every `await()`, the profile store of the achievements manager, whose
  writes are returned instead, and the Firestore write of a generated
  route.
- The weather HTTP service is left out. Its answer, or the exception it
  threw, is an input.
- The Android UI, view models, notification channels, workers' `doWork`
  and WorkManager scheduling are left out.
- The Gson list converters of `Converters` are a library call and are left
  out.
- `updateRouteRating` computes an average that it never uses. The photo
  and review uploads, the feeds and the user-stats documents are only
  Firestore reads and writes. None of these is modelled.
- Concurrency is not modelled, including the read-modify-write races of
  likes and achievements.
- `lowercase()` is modelled for ASCII letters only, with no Unicode case
  mapping.
- Entities.FromGeoPoint and Entities.ToGeoPoint: `Double.toString` and
  `String.toDouble` are parameters. The round trip assumes that a rendered
  number has no comma and parses back to itself.
- Text.ParseLong: only the sign and ASCII digits are accepted. Kotlin
  `toLong` also accepts other Unicode digits.
- The 64-bit `Long` subtraction in the streak loop and 32-bit `Int`
  overflow in counters are not modelled.
- Firestore `GeoPoint` rejects out-of-range coordinates, and that check is
  not modelled.
- OfflineSync.RowsFor: the waypoint query has no ORDER BY. The model
  returns rows in insertion order, which is the order the round trip
  relies on.
- RouteGeneration.Walk: it is bounded by `fuel`. A walk that runs out of
  fuel is reported (`outOfFuel`, `Generation.Diverged`) instead of looping
  for ever.
- RouteGeneration.FindNextPoi: the `random()` fallback is modelled as
  `None` on an empty pool. The walk never reaches it.
- RouteRepository.GenerateWaypoints: the draws are arbitrary values in
  their ranges. Their uniform distribution is not modelled.
