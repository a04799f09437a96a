/**
 * Ratings: a review of one party of a trade, which adds the rounded mean of its three
 * scores to the reviewee's trust score; and the list of a user's reviews.
 */
module RatingController {

  import opened Wrappers
  import opened Entities
  import opened Store
  import opened Numbers
  import opened Collections

  /**
   * The body of a rating request; `None` for a field left out. The three scores arrive
   * as text and go through `parseInt`.
   */
  datatype RatingForm = RatingForm(
    tradeId: Option<Id>,
    revieweeId: Option<Id>,
    accuracy: string,
    honesty: string,
    experience: string,
    comment: Option<string>)

  /**
   * `Math.round((accuracy + honesty + experience) / 3)`: the integer nearest to a third
   * of the sum (a third is never exactly half-way between two integers).
   */
  function Points(accuracy: int, honesty: int, experience: int): (p: int)
    ensures var s := accuracy + honesty + experience;
            -3 < 2 * s - 6 * p < 3
  {
    (accuracy + honesty + experience + 1) / 3
  }

  /** On the 1 to 5 scale of each score, the increment is on the same scale. */
  lemma PointsOnScale(accuracy: int, honesty: int, experience: int)
    requires 1 <= accuracy <= 5 && 1 <= honesty <= 5 && 1 <= experience <= 5
    ensures 1 <= Points(accuracy, honesty, experience) <= 5
  {
  }

  /** The three parsed scores, when all three are numbers. */
  function Scores(f: RatingForm): Option<(int, int, int)> {
    match (ParseInt(f.accuracy), ParseInt(f.honesty), ParseInt(f.experience))
    case (Some(a), Some(h), Some(e)) => Some((a, h, e))
    case _ => None
  }

  /** The scores are there exactly when all three parse, and they are the parsed values. */
  lemma ScoresParsed(f: RatingForm)
    ensures Scores(f).Some? <==> ParseInt(f.accuracy).Some? && ParseInt(f.honesty).Some? && ParseInt(f.experience).Some?
    ensures Scores(f).Some? ==> Scores(f).value == (ParseInt(f.accuracy).value, ParseInt(f.honesty).value, ParseInt(f.experience).value)
  {
  }

  /**
   * What submitRating answers: 401 without a reviewer, 500 when the insert fails,
   * otherwise the stored rating (its cases are stated by `ReviewOutcome`).
   */
  function Review(trades: map<Id, Trade>, users: map<Id, User>, caller: Option<Id>, f: RatingForm,
                  ratingId: Id, now: int): Reply<Rating>
  {
    if caller.None? then Fail(Unauthorized)
    else if || f.tradeId.None? || f.revieweeId.None? || Scores(f).None?
            || f.tradeId.value !in trades || caller.value !in users || f.revieweeId.value !in users then
      Fail(ServerError)
    else
      var sc := Scores(f).value;
      Ok(Rating(ratingId, f.tradeId.value, caller.value, f.revieweeId.value, sc.0, sc.1, sc.2, f.comment, now))
  }

  /**
   * The cases of submitRating: 401 without a reviewer. The rating insert fails (500)
   * when the trade or reviewee is left out of the body, a score is not a number, or the
   * trade, reviewer or reviewee it refers to does not exist; otherwise the stored rating carries the caller as reviewer, the request's
   * trade, reviewee and comment, and the parsed scores.
   */
  lemma ReviewOutcome(trades: map<Id, Trade>, users: map<Id, User>, caller: Option<Id>, f: RatingForm,
                      ratingId: Id, now: int)
    ensures var r := Review(trades, users, caller, f, ratingId, now);
            && (caller.None? ==> r == Fail(Unauthorized))
            && (r.Ok? <==> && caller.Some? && f.tradeId.Some? && f.revieweeId.Some? && Scores(f).Some?
                           && f.tradeId.value in trades && caller.value in users && f.revieweeId.value in users)
            && (caller.Some? && !r.Ok? ==> r == Fail(ServerError))
            && (r.Ok? ==>
                  && r.value.id == ratingId && Some(r.value.tradeId) == f.tradeId && r.value.createdAt == now
                  && r.value.reviewerId == caller.value && Some(r.value.revieweeId) == f.revieweeId
                  && r.value.comment == f.comment
                  && Scores(f) == Some((r.value.accuracy, r.value.honesty, r.value.experience)))
  {
  }

  /**
   * submitRating: answers `Review`; on success the rating is stored and only the
   * reviewee's trust score grows, by `Points` of the scores; otherwise nothing is written.
   */
  method SubmitRating(db: Db, caller: Option<Id>, f: RatingForm, ratingId: Id, now: int) returns (r: Reply<Rating>)
    requires ratingId !in db.ratings
    modifies db
    ensures r == Review(old(db.trades), old(db.users), caller, f, ratingId, now)
    ensures !r.Ok? ==> db.ratings == old(db.ratings) && db.users == old(db.users)
    ensures r.Ok? ==>
              && db.ratings == old(db.ratings)[ratingId := r.value]
              && r.value.revieweeId in old(db.users)
              && db.users == Credit(old(db.users), r.value.revieweeId, Points(r.value.accuracy, r.value.honesty, r.value.experience))
    ensures db.Snapshot() == old(db.Snapshot()) && db.messages == old(db.messages)
  {
    if caller.None? {
      r := Fail(Unauthorized);
      return;
    }
    var scores := Scores(f);
    if || f.tradeId.None? || f.revieweeId.None? || scores.None?
       || f.tradeId.value !in db.trades || caller.value !in db.users || f.revieweeId.value !in db.users {
      r := Fail(ServerError);
      return;
    }
    var (a, h, e) := scores.value;
    var reviewee := f.revieweeId.value;
    var rating := Rating(ratingId, f.tradeId.value, caller.value, reviewee, a, h, e, f.comment, now);
    db.ratings := db.ratings[ratingId := rating];
    db.users := Credit(db.users, reviewee, Points(a, h, e));
    r := Ok(rating);
  }

  /** The `increment` of the reviewee's trust score. */
  function Credit(users: map<Id, User>, reviewee: Id, points: int): map<Id, User>
    requires reviewee in users
  {
    users[reviewee := users[reviewee].(trustScore := users[reviewee].trustScore + points)]
  }

  /** Only the reviewee's trust score changes: every other user, and the reviewee's other fields, stay as they were. */
  lemma OnlyRevieweeScoreChanges(users: map<Id, User>, reviewee: Id, points: int)
    requires reviewee in users
    ensures var after := Credit(users, reviewee, points);
            && after.Keys == users.Keys
            && (forall id | id in users && id != reviewee :: after[id] == users[id])
            && after[reviewee].trustScore - users[reviewee].trustScore == points
            && after[reviewee].(trustScore := 0) == users[reviewee].(trustScore := 0)
  {
  }

  function RatedAt(r: Rating): int {
    r.createdAt
  }

  /** getRatings: exactly the ratings of this reviewee, each once, newest first. */
  method GetRatings(db: Db, userId: Id) returns (r: seq<Rating>)
    ensures forall x :: x in r <==> x in db.ratings.Values && x.revieweeId == userId
    ensures |r| == |set x | x in db.ratings.Values && x.revieweeId == userId|
    ensures SortedDesc(r, RatedAt)
  {
    var rows := Enumerate(set x | x in db.ratings.Values && x.revieweeId == userId);
    r := SortDesc(rows, RatedAt);
    SortKeepsRows(rows, RatedAt);
  }
}
