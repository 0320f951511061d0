/** The like and activity rules of `SocialRepository`. The three Firestore
    collections it writes are fields of a class, keyed by document id;
    document ids come from Firestore and the clock from `Date()`, so both
    are parameters. */
module Social {
  import opened Model

  // ---------------------------------------------------------------------------
  // The guarded like update

  /** The `(likes, likedBy)` pair a like by `userId` leaves behind: unchanged
      when the user is already listed, otherwise one more like and the user
      appended. */
  function LikeUpdate(likes: int, likedBy: seq<string>, userId: string): (r: (int, seq<string>))
    ensures userId in r.1
    ensures |likedBy| <= |r.1| <= |likedBy| + 1 && r.1[..|likedBy|] == likedBy
    ensures r.0 - |r.1| == likes - |likedBy|
    ensures r == (likes, likedBy) <==> userId in likedBy
  {
    if userId in likedBy then (likes, likedBy) else (likes + 1, likedBy + [userId])
  }

  /** Liking twice is liking once. */
  lemma LikeIdempotent(likes: int, likedBy: seq<string>, userId: string)
    ensures var once := LikeUpdate(likes, likedBy, userId);
            LikeUpdate(once.0, once.1, userId) == once
  {
  }

  predicate NoDuplicates(s: seq<string>) {
    forall i, j :: 0 <= i < j < |s| ==> s[i] != s[j]
  }

  /** A duplicate-free `likedBy` stays duplicate-free, so after any sequence
      of likes `likes` counts each liking user once on top of its start
      value. */
  lemma LikeKeepsNoDuplicates(likes: int, likedBy: seq<string>, userId: string)
    requires NoDuplicates(likedBy)
    ensures NoDuplicates(LikeUpdate(likes, likedBy, userId).1)
  {
    var r := LikeUpdate(likes, likedBy, userId).1;
    if userId !in likedBy {
      forall i, j | 0 <= i < j < |r|
        ensures r[i] != r[j]
      {
        if j == |likedBy| {
          assert r[i] == likedBy[i];
        } else {
          assert r[i] == likedBy[i] && r[j] == likedBy[j];
        }
      }
    }
  }

  /** Likes by a list of users in turn. */
  function LikeAll(likes: int, likedBy: seq<string>, users: seq<string>): (r: (int, seq<string>))
    decreases |users|
  {
    if users == [] then (likes, likedBy)
    else
      var next := LikeUpdate(likes, likedBy, users[0]);
      LikeAll(next.0, next.1, users[1..])
  }

  /** Whatever order users like in, and however often, a document that starts
      with `likes == |likedBy|` and no duplicates keeps both. */
  lemma {:induction false} LikeAllKeepsCount(likes: int, likedBy: seq<string>, users: seq<string>)
    requires likes == |likedBy| && NoDuplicates(likedBy)
    ensures var r := LikeAll(likes, likedBy, users);
            r.0 == |r.1| && NoDuplicates(r.1)
            && (forall u :: u in r.1 <==> u in likedBy || u in users)
    decreases |users|
  {
    if users != [] {
      var next := LikeUpdate(likes, likedBy, users[0]);
      LikeKeepsNoDuplicates(likes, likedBy, users[0]);
      LikeAllKeepsCount(next.0, next.1, users[1..]);
      var r := LikeAll(likes, likedBy, users);
      forall u
        ensures u in r.1 <==> u in likedBy || u in users
      {
        assert u in next.1 <==> u in likedBy || u == users[0];
        assert u in users <==> u == users[0] || u in users[1..];
      }
    }
  }

  // ---------------------------------------------------------------------------
  // Activities

  /** `addActivity`: the stored activity gets the new document id and the
      current time, and keeps every other field. */
  function WithIdAndTime(activity: SocialActivity, activityId: string, now: int): (r: SocialActivity)
    ensures r.id == activityId && r.createdAt == Date(now)
    ensures r.(id := activity.id, createdAt := activity.createdAt) == activity
  {
    activity.(id := activityId, createdAt := Date(now))
  }

  /** The activity a fresh like on the review stored under `reviewId`
      records: REVIEW_LIKED by `userId` on the review's route, naming the
      review and its author; other fields keep their defaults. */
  function ReviewLikedActivity(reviewId: string, review: RouteReview, userId: string, created: Date): (a: SocialActivity)
    ensures a.kind == ReviewLiked && a.userId == userId && a.routeId == review.routeId
    ensures a.metadata.Keys == {"reviewId", "reviewUserId"}
    ensures a.metadata["reviewId"] == reviewId && a.metadata["reviewUserId"] == review.userId
  {
    SocialActivity(
      id := "",
      kind := ReviewLiked,
      userId := userId,
      userName := "",
      userPhotoUrl := "",
      routeId := review.routeId,
      routeName := "",
      createdAt := created,
      metadata := map["reviewId" := reviewId, "reviewUserId" := review.userId])
  }

  // ---------------------------------------------------------------------------
  // The store

  class SocialRepository {
    /** The `reviews` collection. */
    var reviews: map<string, RouteReview>
    /** The `photos` collection. */
    var photos: map<string, RoutePhoto>
    /** The `activities` collection. */
    var activities: map<string, SocialActivity>

    constructor ()
      ensures reviews == map[] && photos == map[] && activities == map[]
    {
      reviews := map[];
      photos := map[];
      activities := map[];
    }

    /** `addActivity`: store the activity under a new document id. */
    method AddActivity(activity: SocialActivity, activityId: string, now: int)
      modifies this
      ensures activities == old(activities)[activityId := WithIdAndTime(activity, activityId, now)]
      ensures reviews == old(reviews) && photos == old(photos)
    {
      var activityWithId := activity.(id := activityId, createdAt := Date(now));
      activities := activities[activityId := activityWithId];
    }

    /** `likeReview`: a missing review or a repeated like changes nothing;
        otherwise the review's `likes` and `likedBy` follow `LikeUpdate` and
        one REVIEW_LIKED activity is stored. */
    method LikeReview(reviewId: string, userId: string, activityId: string, now: int)
      modifies this
      ensures photos == old(photos)
      ensures reviewId !in old(reviews) || userId in old(reviews)[reviewId].likedBy ==>
                reviews == old(reviews) && activities == old(activities)
      ensures reviewId in old(reviews) && userId !in old(reviews)[reviewId].likedBy ==>
                var review := old(reviews)[reviewId];
                var liked := LikeUpdate(review.likes, review.likedBy, userId);
                && reviews == old(reviews)[reviewId := review.(likes := liked.0, likedBy := liked.1)]
                && activities == old(activities)[activityId :=
                     WithIdAndTime(ReviewLikedActivity(reviewId, review, userId, Date(now)), activityId, now)]
    {
      if reviewId !in reviews {
        return;
      }
      var review := reviews[reviewId];
      var likedBy := review.likedBy;
      if userId !in likedBy {
        likedBy := likedBy + [userId];
        reviews := reviews[reviewId := review.(likes := review.likes + 1, likedBy := likedBy)];
        AddActivity(ReviewLikedActivity(reviewId, review, userId, Date(now)), activityId, now);
      }
    }

    /** `likePhoto`: as `likeReview`, but no activity is recorded. */
    method LikePhoto(photoId: string, userId: string)
      modifies this
      ensures reviews == old(reviews) && activities == old(activities)
      ensures photoId !in old(photos) || userId in old(photos)[photoId].likedBy ==> photos == old(photos)
      ensures photoId in old(photos) && userId !in old(photos)[photoId].likedBy ==>
                var photo := old(photos)[photoId];
                var liked := LikeUpdate(photo.likes, photo.likedBy, userId);
                photos == old(photos)[photoId := photo.(likes := liked.0, likedBy := liked.1)]
    {
      if photoId !in photos {
        return;
      }
      var photo := photos[photoId];
      var likedBy := photo.likedBy;
      if userId !in likedBy {
        likedBy := likedBy + [userId];
        photos := photos[photoId := photo.(likes := photo.likes + 1, likedBy := likedBy)];
      }
    }
  }
}
