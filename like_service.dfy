/**
 * The like service: likes and dislikes are ratings of +1 and -1 under the "like"
 * aspect, each written as cancel-then-rate, plus the counts, the user's status and the
 * most liked documents of a context.
 */
module LikeService {
  import opened Wrappers
  import opened Decimal
  import opened Seqs
  import opened Activities
  import opened Ledger
  import opened RatingFilter
  import opened RatingService
  import opened LikeStatusModel
  import LikesCountFilter

  const LikeRating: Int32 := 1
  const DislikeRating: Int32 := -1

  /** like: drops the user's like-aspect ratings of the object, then rates it +1. */
  method Like(store: Ledger, username: string, activityObject: string, now: int)
    requires store.Valid()
    modifies store
    ensures store.Valid() && store.nextId == old(store.nextId) + 1
    ensures store.events == Reject(old(store.events), ActorMatcher(username, activityObject, LikeAspect))
                            + [RatingEvent(old(store.nextId), username, LikeRating, activityObject, LikeAspect, now)]
  {
    CancelRate(store, username, activityObject, LikeAspect);
    Rate(store, username, LikeRating, activityObject, LikeAspect, now);
  }

  /** dislike: drops the user's like-aspect ratings of the object, then rates it -1. */
  method Dislike(store: Ledger, username: string, activityObject: string, now: int)
    requires store.Valid()
    modifies store
    ensures store.Valid() && store.nextId == old(store.nextId) + 1
    ensures store.events == Reject(old(store.events), ActorMatcher(username, activityObject, LikeAspect))
                            + [RatingEvent(old(store.nextId), username, DislikeRating, activityObject, LikeAspect, now)]
  {
    CancelRate(store, username, activityObject, LikeAspect);
    Rate(store, username, DislikeRating, activityObject, LikeAspect, now);
  }

  /** cancel: drops the user's like-aspect ratings of the object. */
  method Cancel(store: Ledger, username: string, activityObject: string)
    requires store.Valid()
    modifies store
    ensures store.Valid() && store.nextId == old(store.nextId)
    ensures store.events == Reject(old(store.events), ActorMatcher(username, activityObject, LikeAspect))
  {
    CancelRate(store, username, activityObject, LikeAspect);
  }

  /** getLikesCount: the primary like-aspect ratings of value 1. */
  function LikesCount(events: seq<Event>, activityObject: string): (n: nat)
    ensures n <= RatesCount(events, activityObject, LikeAspect)
  {
    RatesCountWithValue(events, activityObject, LikeRating, LikeAspect)
  }

  /** getDislikesCount: the primary like-aspect ratings of value -1. */
  function DislikesCount(events: seq<Event>, activityObject: string): (n: nat)
    ensures n <= RatesCount(events, activityObject, LikeAspect)
  {
    RatesCountWithValue(events, activityObject, DislikeRating, LikeAspect)
  }

  /** The user's like-aspect average on the object, the value both status checks read. */
  function UserAverage(events: seq<Event>, username: string, activityObject: string): Average
  {
    AverageOf(Filter(events, ActorMatcher(username, activityObject, LikeAspect)))
  }

  /** The user's status as getLikeStatus(username, activityObject) computes it. */
  function UserStatus(events: seq<Event>, username: string, activityObject: string): (s: int)
    ensures s == Liked || s == Disliked || s == Unknown
    ensures s == Liked <==> UserAverage(events, username, activityObject).IsPositive()
    ensures s == Disliked <==> UserAverage(events, username, activityObject).IsNegative()
    ensures !HasUserRated(events, username, activityObject, LikeAspect) ==> s == Unknown
  {
    RatesCountForUserIsSelectionSize(events, username, activityObject, LikeAspect);
    var average := UserAverage(events, username, activityObject);
    if average.IsPositive() then Liked else if average.IsNegative() then Disliked else Unknown
  }

  /** hasUserLiked: the user's like-aspect average is above zero. */
  method HasUserLiked(events: seq<Event>, username: string, activityObject: string) returns (liked: bool)
    ensures liked <==> UserStatus(events, username, activityObject) == Liked
  {
    var average := GetAverageRatingForUser(events, username, activityObject, LikeAspect);
    liked := average.IsPositive();
  }

  /** hasUserDisliked: the user's like-aspect average is below zero. */
  method HasUserDisliked(events: seq<Event>, username: string, activityObject: string) returns (disliked: bool)
    ensures disliked <==> UserStatus(events, username, activityObject) == Disliked
  {
    var average := GetAverageRatingForUser(events, username, activityObject, LikeAspect);
    disliked := average.IsNegative();
  }

  /** getLikeStatus(activityObject): the counts, no user, status UNKNOWN. */
  function GetLikeStatus(events: seq<Event>, activityObject: string): (s: LikeStatus)
    ensures s.activityObject == activityObject && s.username.None? && s.userLikeStatus == Unknown
    ensures s.likesCount == LikesCount(events, activityObject)
    ensures s.dislikesCount == DislikesCount(events, activityObject)
    ensures s.likesCount + s.dislikesCount <= RatesCount(events, activityObject, LikeAspect)
  {
    LikesAndDislikesWithinRatings(events, activityObject);
    ForObject(activityObject, LikesCount(events, activityObject), DislikesCount(events, activityObject))
  }

  /** getLikeStatus(username, activityObject): LIKED if liked, else DISLIKED if disliked, else UNKNOWN. */
  method GetUserLikeStatus(events: seq<Event>, username: string, activityObject: string)
    returns (s: LikeStatus)
    ensures s == LikeStatus(activityObject, LikesCount(events, activityObject),
                            DislikesCount(events, activityObject), Some(username),
                            UserStatus(events, username, activityObject))
  {
    var likes := LikesCount(events, activityObject);
    var dislikes := DislikesCount(events, activityObject);
    var liked := HasUserLiked(events, username, activityObject);
    var disliked := HasUserDisliked(events, username, activityObject);
    var status := if liked then Liked else if disliked then Disliked else Unknown;
    s := LikeStatus(activityObject, likes, dislikes, Some(username), status);
  }

  /** The events left after cancel-then-rate with `value`. */
  function Relike(events: seq<Event>, id: int, username: string, value: Int32,
                  activityObject: string, now: int): seq<Event>
  {
    Reject(events, ActorMatcher(username, activityObject, LikeAspect))
    + [RatingEvent(id, username, value, activityObject, LikeAspect, now)]
  }

  /** After cancel-then-rate the user has exactly one like-aspect rating: the new one. */
  lemma RelikeLeavesOneRating(events: seq<Event>, id: int, username: string, value: Int32,
                              activityObject: string, now: int)
    ensures Filter(Relike(events, id, username, value, activityObject, now),
                   ActorMatcher(username, activityObject, LikeAspect))
            == [RatingEvent(id, username, value, activityObject, LikeAspect, now)]
    ensures UserAverage(Relike(events, id, username, value, activityObject, now), username, activityObject)
            == Quotient(value, 1)
  {
    var p := ActorMatcher(username, activityObject, LikeAspect);
    var e := RatingEvent(id, username, value, activityObject, LikeAspect, now);
    RejectLeavesNoMatch(events, p);
    FilterAppend(Reject(events, p), [e], p);
    ActorMatcherIs(e, username, activityObject, LikeAspect);
    assert Filter([e], p) == [e];
    ParsedValueAddsToSum([], e, value) by {
      ParseDecimalRoundTrip(value);
    }
    assert [] + [e] == [e];
  }

  /** After like the user's status is LIKED; after dislike it is DISLIKED. */
  lemma LikeAndDislikeSetStatus(events: seq<Event>, id: int, username: string,
                                activityObject: string, now: int)
    ensures UserStatus(Relike(events, id, username, LikeRating, activityObject, now),
                       username, activityObject) == Liked
    ensures UserStatus(Relike(events, id, username, DislikeRating, activityObject, now),
                       username, activityObject) == Disliked
  {
    RelikeLeavesOneRating(events, id, username, LikeRating, activityObject, now);
    RelikeLeavesOneRating(events, id, username, DislikeRating, activityObject, now);
  }

  /** After cancel the user's status is UNKNOWN. */
  lemma CancelClearsStatus(events: seq<Event>, username: string, activityObject: string)
    ensures UserStatus(Reject(events, ActorMatcher(username, activityObject, LikeAspect)),
                       username, activityObject) == Unknown
  {
    RejectLeavesNoMatch(events, ActorMatcher(username, activityObject, LikeAspect));
  }

  /** The user's own ratings of `value` on the object. */
  function UserValueMatcher(username: string, activityObject: string, value: Int32): Event -> bool
  {
    Matcher(ActorQuery(username, activityObject, LikeAspect, Some(value)))
  }

  function ValueMatcher(activityObject: string, value: Int32): Event -> bool
  {
    Matcher(ObjectQuery(activityObject, LikeAspect, Some(value)))
  }

  /** No rating is both a like and a dislike, so together they are at most the object's ratings. */
  lemma LikesAndDislikesWithinRatings(events: seq<Event>, activityObject: string)
    ensures LikesCount(events, activityObject) + DislikesCount(events, activityObject)
            <= RatesCount(events, activityObject, LikeAspect)
  {
    RatesCountWithValueIsSelectionSize(events, activityObject, LikeRating, LikeAspect);
    RatesCountWithValueIsSelectionSize(events, activityObject, DislikeRating, LikeAspect);
    RatesCountIsSelectionSize(events, activityObject, LikeAspect);
    DecimalStringInjective(LikeRating, DislikeRating);
    forall e | e in events
      ensures ValueMatcher(activityObject, LikeRating)(e) ==> ObjectMatcher(activityObject, LikeAspect)(e)
      ensures ValueMatcher(activityObject, DislikeRating)(e) ==> ObjectMatcher(activityObject, LikeAspect)(e)
      ensures !(ValueMatcher(activityObject, LikeRating)(e) && ValueMatcher(activityObject, DislikeRating)(e))
    {
      ValueMatcherIs(e, activityObject, LikeAspect, LikeRating);
      ValueMatcherIs(e, activityObject, LikeAspect, DislikeRating);
      ObjectMatcherIs(e, activityObject, LikeAspect);
    }
    FilterDisjointWithin(events, ValueMatcher(activityObject, LikeRating),
                         ValueMatcher(activityObject, DislikeRating), ObjectMatcher(activityObject, LikeAspect));
  }

  /** Dropping a user's like-aspect ratings takes exactly that user's ratings of `value` off its count. */
  lemma CancelTakesUserValues(events: seq<Event>, username: string, activityObject: string, value: Int32)
    ensures RatesCountWithValue(Reject(events, ActorMatcher(username, activityObject, LikeAspect)),
                                activityObject, value, LikeAspect)
            == RatesCountWithValue(events, activityObject, value, LikeAspect)
               - RatesCountForUserWithValue(events, username, activityObject, value, LikeAspect)
  {
    var p := ActorMatcher(username, activityObject, LikeAspect);
    var q := ValueMatcher(activityObject, value);
    RatesCountWithValueIsSelectionSize(events, activityObject, value, LikeAspect);
    RatesCountWithValueIsSelectionSize(Reject(events, p), activityObject, value, LikeAspect);
    RejectCount(events, p, q);
    forall e | e in events
      ensures Both(p, q)(e) == UserValueMatcher(username, activityObject, value)(e)
    {
      ActorMatcherIs(e, username, activityObject, LikeAspect);
      ValueMatcherIs(e, activityObject, LikeAspect, value);
    }
    FilterAgree(events, Both(p, q), UserValueMatcher(username, activityObject, value));
  }

  /** Appending the new rating adds one to its own value's count and nothing to another's. */
  lemma RateAddsToItsValue(events: seq<Event>, id: int, username: string, value: Int32,
                           activityObject: string, now: int, counted: Int32)
    ensures RatesCountWithValue(events + [RatingEvent(id, username, value, activityObject, LikeAspect, now)],
                                activityObject, counted, LikeAspect)
            == RatesCountWithValue(events, activityObject, counted, LikeAspect) + (if counted == value then 1 else 0)
  {
    if counted == value {
      RateAddsToValueCount(events, id, username, value, activityObject, LikeAspect, now);
    } else {
      RateKeepsOtherValues(events, id, username, value, activityObject, LikeAspect, now, counted);
    }
  }

  /**
   * like(u, T): the likes count loses u's earlier likes and gains one; the dislikes
   * count loses u's earlier dislikes.
   */
  lemma LikeCounts(events: seq<Event>, id: int, username: string, activityObject: string, now: int)
    ensures var after := Relike(events, id, username, LikeRating, activityObject, now);
      && LikesCount(after, activityObject) == LikesCount(events, activityObject)
         - RatesCountForUserWithValue(events, username, activityObject, LikeRating, LikeAspect) + 1
      && DislikesCount(after, activityObject) == DislikesCount(events, activityObject)
         - RatesCountForUserWithValue(events, username, activityObject, DislikeRating, LikeAspect)
  {
    var rest := Reject(events, ActorMatcher(username, activityObject, LikeAspect));
    CancelTakesUserValues(events, username, activityObject, LikeRating);
    CancelTakesUserValues(events, username, activityObject, DislikeRating);
    RateAddsToItsValue(rest, id, username, LikeRating, activityObject, now, LikeRating);
    RateAddsToItsValue(rest, id, username, LikeRating, activityObject, now, DislikeRating);
  }

  /** dislike(u, T): the mirror image of like. */
  lemma DislikeCounts(events: seq<Event>, id: int, username: string, activityObject: string, now: int)
    ensures var after := Relike(events, id, username, DislikeRating, activityObject, now);
      && DislikesCount(after, activityObject) == DislikesCount(events, activityObject)
         - RatesCountForUserWithValue(events, username, activityObject, DislikeRating, LikeAspect) + 1
      && LikesCount(after, activityObject) == LikesCount(events, activityObject)
         - RatesCountForUserWithValue(events, username, activityObject, LikeRating, LikeAspect)
  {
    var rest := Reject(events, ActorMatcher(username, activityObject, LikeAspect));
    CancelTakesUserValues(events, username, activityObject, LikeRating);
    CancelTakesUserValues(events, username, activityObject, DislikeRating);
    RateAddsToItsValue(rest, id, username, DislikeRating, activityObject, now, LikeRating);
    RateAddsToItsValue(rest, id, username, DislikeRating, activityObject, now, DislikeRating);
  }

  /** After cancel-then-rate the user has one rating of the new value and none of another. */
  lemma RelikeUserValues(events: seq<Event>, id: int, username: string, value: Int32,
                         activityObject: string, now: int, counted: Int32)
    ensures RatesCountForUserWithValue(Relike(events, id, username, value, activityObject, now),
                                       username, activityObject, counted, LikeAspect)
            == if counted == value then 1 else 0
  {
    var after := Relike(events, id, username, value, activityObject, now);
    var e := RatingEvent(id, username, value, activityObject, LikeAspect, now);
    var p := ActorMatcher(username, activityObject, LikeAspect);
    RelikeLeavesOneRating(events, id, username, value, activityObject, now);
    forall x | x in after
      ensures UserValueMatcher(username, activityObject, counted)(x)
              == Both(p, ValueMatcher(activityObject, counted))(x)
    {
      ActorMatcherIs(x, username, activityObject, LikeAspect);
      ValueMatcherIs(x, activityObject, LikeAspect, counted);
    }
    FilterAgree(after, UserValueMatcher(username, activityObject, counted), Both(p, ValueMatcher(activityObject, counted)));
    FilterFilter(after, p, ValueMatcher(activityObject, counted));
    ValueMatcherIs(e, activityObject, LikeAspect, counted);
    DecimalStringInjective(value, counted);
    assert Filter([e], ValueMatcher(activityObject, counted)) == if counted == value then [e] else [];
  }

  /** Liking twice counts once: the second like leaves the likes count where the first put it. */
  lemma LikeTwiceCountsOnce(events: seq<Event>, id: int, id': int, username: string,
                            activityObject: string, now: int, now': int)
    ensures var once := Relike(events, id, username, LikeRating, activityObject, now);
            LikesCount(Relike(once, id', username, LikeRating, activityObject, now'), activityObject)
            == LikesCount(once, activityObject)
  {
    var once := Relike(events, id, username, LikeRating, activityObject, now);
    LikeCounts(once, id', username, activityObject, now');
    RelikeUserValues(events, id, username, LikeRating, activityObject, now, LikeRating);
  }

  /** Like then dislike by one user: that user's like is gone and one dislike is added. */
  lemma LikeThenDislike(events: seq<Event>, id: int, id': int, username: string,
                        activityObject: string, now: int, now': int)
    ensures var liked := Relike(events, id, username, LikeRating, activityObject, now);
            var disliked := Relike(liked, id', username, DislikeRating, activityObject, now');
      && LikesCount(disliked, activityObject) == LikesCount(events, activityObject)
         - RatesCountForUserWithValue(events, username, activityObject, LikeRating, LikeAspect)
      && DislikesCount(disliked, activityObject) == DislikesCount(events, activityObject)
         - RatesCountForUserWithValue(events, username, activityObject, DislikeRating, LikeAspect) + 1
      && UserStatus(disliked, username, activityObject) == Disliked
  {
    var liked := Relike(events, id, username, LikeRating, activityObject, now);
    LikeCounts(events, id, username, activityObject, now);
    DislikeCounts(liked, id', username, activityObject, now');
    RelikeUserValues(events, id, username, LikeRating, activityObject, now, LikeRating);
    RelikeUserValues(events, id, username, LikeRating, activityObject, now, DislikeRating);
    LikeAndDislikeSetStatus(liked, id', username, activityObject, now');
  }

  /** On an empty store, like then dislike leaves no like and one dislike. */
  lemma LikeThenDislikeFromEmpty(id: int, id': int, username: string, activityObject: string,
                                 now: int, now': int)
    ensures var liked := Relike([], id, username, LikeRating, activityObject, now);
            var disliked := Relike(liked, id', username, DislikeRating, activityObject, now');
            LikesCount(disliked, activityObject) == 0 && DislikesCount(disliked, activityObject) == 1
  {
    LikeThenDislike([], id, id', username, activityObject, now, now');
    RatesCountWithValueIsSelectionSize([], activityObject, LikeRating, LikeAspect);
    RatesCountWithValueIsSelectionSize([], activityObject, DislikeRating, LikeAspect);
  }

  /**
   * cancel(u, T): the counts lose exactly u's likes and dislikes, u's status becomes
   * UNKNOWN, and every other user's, object's or aspect's ratings stay.
   */
  lemma CancelEffect(events: seq<Event>, username: string, activityObject: string,
                     username': string, target': string, aspect': string)
    requires username' != username || target' != activityObject || aspect' != LikeAspect
    ensures var after := Reject(events, ActorMatcher(username, activityObject, LikeAspect));
      && LikesCount(after, activityObject) == LikesCount(events, activityObject)
         - RatesCountForUserWithValue(events, username, activityObject, LikeRating, LikeAspect)
      && DislikesCount(after, activityObject) == DislikesCount(events, activityObject)
         - RatesCountForUserWithValue(events, username, activityObject, DislikeRating, LikeAspect)
      && UserStatus(after, username, activityObject) == Unknown
      && Filter(after, ActorMatcher(username', target', aspect'))
         == Filter(events, ActorMatcher(username', target', aspect'))
  {
    CancelTakesUserValues(events, username, activityObject, LikeRating);
    CancelTakesUserValues(events, username, activityObject, DislikeRating);
    CancelClearsStatus(events, username, activityObject);
    CancelRateEffect(events, username, activityObject, LikeAspect, username', target', aspect');
  }

  /** The parameters getMostLikedDocuments means to pass: documents liked in the source's context. */
  function MostLikedParams(principal: string, sourceObject: string): LikesCountFilter.CountParams
  {
    LikesCountFilter.CountParams(Some(LikesCountFilter.GetDocumentsCount), Some(sourceObject),
                                 Some(LikeRating), Some(UserActivityObject(principal)), None)
  }

  /** The parameters getMostLikedDocuments passes: the query type is never put. */
  function MostLikedParamsAsWritten(principal: string, sourceObject: string): LikesCountFilter.CountParams
  {
    LikesCountFilter.CountParams(None, Some(sourceObject), Some(LikeRating),
                                 Some(UserActivityObject(principal)), None)
  }

  /** The truncation: subList(0, limit) when the list is longer than `limit`. */
  function Truncate<T>(s: seq<T>, limit: int): (r: Result<seq<T>>)
    ensures r.Err? <==> limit < 0
    ensures r.Ok? ==> |r.value| == if |s| > limit then limit else |s|
    ensures r.Ok? ==> r.value == s[..|r.value|]
  {
    if |s| > limit then
      if limit < 0 then Err(InvalidSubListRange) else Ok(s[..limit])
    else Ok(s)
  }

  /** The activities built from a list of rows. */
  function Entries(actor: Option<string>, rows: seq<LikesCountFilter.CountRow>): (r: seq<LikesCountFilter.CountActivity>)
    ensures |r| == |rows|
    ensures forall i :: 0 <= i < |rows| ==> r[i] == LikesCountFilter.Entry(actor, rows[i])
  {
    seq(|rows|, i requires 0 <= i < |rows| => LikesCountFilter.Entry(actor, rows[i]))
  }

  /** Whether the session may see the activity built from a row. */
  function VisibleRow(actor: Option<string>, visible: LikesCountFilter.CountActivity -> bool)
    : LikesCountFilter.CountRow -> bool
  {
    (row: LikesCountFilter.CountRow) => visible(LikesCountFilter.Entry(actor, row))
  }

  /** Filtering the activities is filtering the rows they are built from. */
  lemma {:induction false} FilterEntries(actor: Option<string>, rows: seq<LikesCountFilter.CountRow>,
                                         visible: LikesCountFilter.CountActivity -> bool)
    ensures Filter(Entries(actor, rows), visible) == Entries(actor, Filter(rows, VisibleRow(actor, visible)))
  {
    if rows != [] {
      var v := VisibleRow(actor, visible);
      var x, rest := rows[0], rows[1..];
      FilterEntries(actor, rest, visible);
      var head := if v(x) then [x] else [];
      assert Filter(rows, v) == head + Filter(rest, v);
      EntriesAppend(actor, head, Filter(rest, v));
      EntriesCons(actor, rows);
      FilterAppend(Entries(actor, [x]), Entries(actor, rest), visible);
      FilterOneEntry(actor, x, visible);
    }
  }

  lemma EntriesAppend(actor: Option<string>, a: seq<LikesCountFilter.CountRow>, b: seq<LikesCountFilter.CountRow>)
    ensures Entries(actor, a + b) == Entries(actor, a) + Entries(actor, b)
  {
  }

  lemma EntriesCons(actor: Option<string>, rows: seq<LikesCountFilter.CountRow>)
    requires rows != []
    ensures Entries(actor, rows) == Entries(actor, [rows[0]]) + Entries(actor, rows[1..])
  {
    assert rows == [rows[0]] + rows[1..];
    EntriesAppend(actor, [rows[0]], rows[1..]);
  }

  lemma FilterOneEntry(actor: Option<string>, x: LikesCountFilter.CountRow,
                       visible: LikesCountFilter.CountActivity -> bool)
    ensures Filter(Entries(actor, [x]), visible)
            == Entries(actor, if VisibleRow(actor, visible)(x) then [x] else [])
  {
    assert Entries(actor, [x]) == [LikesCountFilter.Entry(actor, x)];
    assert Entries(actor, [x])[1..] == [];
  }

  /** The visible rows of the documents-count query, in its order. */
  function MostLikedRows(events: seq<Event>, principal: string, sourceObject: string,
                         visible: LikesCountFilter.CountActivity -> bool): seq<LikesCountFilter.CountRow>
  {
    Filter(LikesCountFilter.PagedRows(events, MostLikedParams(principal, sourceObject), 0, 0),
           VisibleRow(Some(UserActivityObject(principal)), visible))
  }

  /**
   * getMostLikedDocuments as written: the query type is never set, so the query returns
   * nothing, and a negative limit makes the truncation fail.
   */
  method GetMostLikedDocumentsAsWritten(events: seq<Event>, principal: string, sourceObject: string,
                                        limit: int, visible: LikesCountFilter.CountActivity -> bool)
    returns (r: Result<seq<LikesCountFilter.CountActivity>>)
    ensures limit >= 0 ==> r == Ok([])
    ensures limit < 0 ==> r.Err?
  {
    var result := LikesCountFilter.Query(events, MostLikedParamsAsWritten(principal, sourceObject), 0, 0);
    var activities := result.value;
    var filtered := Filter(activities, visible);
    r := Truncate(filtered, limit);
  }

  /**
   * getMostLikedDocuments with the documents-count query type: the first `limit`
   * visible documents of the context, most liked first, each with its count.
   */
  method GetMostLikedDocuments(events: seq<Event>, principal: string, sourceObject: string,
                               limit: int, visible: LikesCountFilter.CountActivity -> bool)
    returns (r: Result<seq<LikesCountFilter.CountActivity>>)
    ensures r.Err? <==> limit < 0
    ensures r.Ok? ==> |r.value| <= limit
    ensures r.Ok? ==> var rows := MostLikedRows(events, principal, sourceObject, visible);
                      |r.value| == (if |rows| > limit then limit else |rows|)
                      && r.value == Entries(Some(UserActivityObject(principal)), rows[..|r.value|])
  {
    var params := MostLikedParams(principal, sourceObject);
    var actor := Some(UserActivityObject(principal));
    var result := LikesCountFilter.Query(events, params, 0, 0);
    var activities := result.value;
    var rows := LikesCountFilter.PagedRows(events, params, 0, 0);
    assert activities == Entries(actor, rows);
    var filtered := Filter(activities, visible);
    FilterEntries(actor, rows, visible);
    r := Truncate(filtered, limit);
    if r.Ok? {
      var kept := Filter(rows, VisibleRow(actor, visible));
      assert r.value == Entries(actor, kept)[..|r.value|];
      assert Entries(actor, kept)[..|r.value|] == Entries(actor, kept[..|r.value|]);
    }
  }

  /**
   * The rows getMostLikedDocuments returns come most liked first, name distinct
   * documents liked in the context, and each carries that document's like count.
   */
  lemma MostLikedRowsOrdered(events: seq<Event>, principal: string, sourceObject: string,
                             visible: LikesCountFilter.CountActivity -> bool, n: nat)
    requires n <= |MostLikedRows(events, principal, sourceObject, visible)|
    ensures var rows := MostLikedRows(events, principal, sourceObject, visible)[..n];
      && SortedDesc(rows, LikesCountFilter.RowKey)
      && (forall row :: row in rows ==>
            row == LikesCountFilter.RowFor(events, MostLikedParams(principal, sourceObject), row.target)
            && row.count == |Filter(events, LikesCountFilter.DocumentLikesOn(MostLikedParams(principal, sourceObject), row.target))|)
  {
    var params := MostLikedParams(principal, sourceObject);
    var all := LikesCountFilter.PagedRows(events, params, 0, 0);
    var kept := MostLikedRows(events, principal, sourceObject, visible);
    LikesCountFilter.PagedRowsAreGroups(events, params, 0, 0);
    FilterKeepsSorted(all, VisibleRow(Some(UserActivityObject(principal)), visible), LikesCountFilter.RowKey);
    PrefixKeepsSorted(kept, n, LikesCountFilter.RowKey);
    forall row | row in kept[..n]
      ensures row == LikesCountFilter.RowFor(events, params, row.target)
      ensures row.count == |Filter(events, LikesCountFilter.DocumentLikesOn(params, row.target))|
    {
      assert row in kept;
      LikesCountFilter.DocumentCountIsGroupSize(events, params, row.target);
    }
  }

  /**
   * The as-written version drops documents: with one like of a document in the source's
   * context and every activity visible, the intended result is not empty.
   */
  lemma MostLikedDocumentsNotAlwaysEmpty(principal: string)
    ensures var like := Event(0, UserActivityObject("bob"), LikesCountFilter.LikeVerb, "doc:x",
                              DecimalString(LikeRating), Some("doc:src"), 0);
            MostLikedRows([like], principal, "doc:src", (a: LikesCountFilter.CountActivity) => true) != []
  {
    var like := Event(0, UserActivityObject("bob"), LikesCountFilter.LikeVerb, "doc:x",
                      DecimalString(LikeRating), Some("doc:src"), 0);
    var params := MostLikedParams(principal, "doc:src");
    var visible := (a: LikesCountFilter.CountActivity) => true;
    assert LikesCountFilter.IsDocumentLike(params, like);
    assert like in LikesCountFilter.Selected([like], params);
    LikesCountFilter.UnpagedRowsCoverSelection([like], params);
    var all := LikesCountFilter.PagedRows([like], params, 0, 0);
    assert "doc:x" in LikesCountFilter.TargetSet(LikesCountFilter.Selected([like], params));
    var row :| row in all && row.target == "doc:x";
    FilterAll(all, VisibleRow(Some(UserActivityObject(principal)), visible));
  }
}
