/** The app's records, transcribed as values. Kotlin `Double` and `Float`
    become `real`, `Int` and `Long` become `int`, `java.util.Date` becomes
    `Date` (its epoch milliseconds), a nullable field becomes an `Option`. */
module Model {
  import opened Wrappers

  /** Firestore `GeoPoint`. */
  datatype GeoPoint = GeoPoint(latitude: real, longitude: real)

  /** `java.util.Date`, which wraps its epoch milliseconds (`Date.time`). */
  datatype Date = Date(time: int)

  datatype Waypoint = Waypoint(
    location: GeoPoint,
    name: string,
    description: string,
    photoUrl: string,
    placeType: string)

  datatype Route = Route(
    id: string,
    name: string,
    createdBy: string,
    startPoint: Option<GeoPoint>,
    waypoints: seq<Waypoint>,
    distance: real,
    duration: int,
    difficulty: string,
    rating: real,
    numberOfRatings: int,
    createdAt: Date,
    placeTypes: seq<string>,
    isIlluminated: bool,
    weatherCondition: string)

  /** The answer of the weather collaborator. */
  datatype WeatherInfo = WeatherInfo(
    temperature: real,
    condition: string,
    description: string,
    isDay: bool)

  datatype WeatherResult = WeatherSuccess(info: WeatherInfo) | WeatherError(message: string)

  // User profile and achievements

  datatype Achievement = Achievement(
    id: string,
    name: string,
    description: string,
    iconUrl: string,
    unlockedAt: int)

  datatype UserStatistics = UserStatistics(
    totalTimeSpent: int,
    averageSpeed: real,
    favoriteRouteTypes: map<string, int>,
    monthlyDistance: map<string, real>,
    uniqueLocationsVisited: int)

  datatype UserProfile = UserProfile(
    userId: string,
    name: string,
    email: string,
    phoneNumber: string,
    photoUrl: string,
    totalDistance: real,
    completedRoutes: int,
    favoriteRoutes: seq<string>,
    achievements: seq<Achievement>,
    statistics: UserStatistics)

  datatype AchievementType =
    | DistanceType
    | RoutesCompleted
    | UniqueLocations
    | WeatherWarrior
    | NightWalker
    | Streak
    | SocialType

  /** An achievement definition; the Android drawable id is left out. */
  datatype AchievementDefinition = AchievementDefinition(
    id: string,
    kind: AchievementType,
    name: string,
    description: string,
    threshold: int,
    points: int)

  // Social records

  datatype RouteReview = RouteReview(
    id: string,
    routeId: string,
    userId: string,
    userName: string,
    userPhotoUrl: string,
    rating: real,
    comment: string,
    photos: seq<string>,
    createdAt: Date,
    likes: int,
    likedBy: seq<string>)

  datatype RoutePhoto = RoutePhoto(
    id: string,
    routeId: string,
    userId: string,
    photoUrl: string,
    description: string,
    location: Option<GeoPoint>,
    createdAt: Date,
    likes: int,
    likedBy: seq<string>)

  datatype ActivityType =
    | RouteCompletedActivity
    | AchievementUnlocked
    | RouteReviewed
    | PhotoUploaded
    | RouteLiked
    | ReviewLiked

  /** A social feed entry; its `metadata` values are the strings the modelled
      operations store there. */
  datatype SocialActivity = SocialActivity(
    id: string,
    kind: ActivityType,
    userId: string,
    userName: string,
    userPhotoUrl: string,
    routeId: string,
    routeName: string,
    createdAt: Date,
    metadata: map<string, string>)
}
