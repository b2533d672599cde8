/**
 * The like status of an activity object: its like and dislike counts and, optionally,
 * one user's own status, with its map form.
 */
module LikeStatusModel {
  import opened Wrappers

  /** The user liked the activity object. */
  const Liked: int := 1
  /** The user disliked the activity object. */
  const Disliked: int := -1
  /** The user neither liked nor disliked it, or no user was asked about. */
  const Unknown: int := 0

  /** An immutable record; `username` is None (null) when no user was asked about. */
  datatype LikeStatus = LikeStatus(
    activityObject: string,
    likesCount: int,
    dislikesCount: int,
    username: Option<string>,
    userLikeStatus: int)

  /** The three-argument constructor: no user, so the user status is UNKNOWN. */
  function ForObject(activityObject: string, likesCount: int, dislikesCount: int): (s: LikeStatus)
    ensures s.username.None? && s.userLikeStatus == Unknown
    ensures s.activityObject == activityObject
    ensures s.likesCount == likesCount && s.dislikesCount == dislikesCount
  {
    LikeStatus(activityObject, likesCount, dislikesCount, None, Unknown)
  }

  /** A value of the attribute map: a (nullable) string, a long or an int. */
  datatype MapValue = Text(text: Option<string>) | Long(long: int) | Int(number: int)

  const ActivityObjectKey: string := "activityObject"
  const LikesCountKey: string := "likesCount"
  const DislikesCountKey: string := "dislikesCount"
  const UsernameKey: string := "username"
  const UserLikeStatusKey: string := "userLikeStatus"

  /** toMap: the five attributes under their field names; a null username is kept. */
  function ToMap(s: LikeStatus): (m: map<string, MapValue>)
    ensures m.Keys == {ActivityObjectKey, LikesCountKey, DislikesCountKey, UsernameKey, UserLikeStatusKey}
  {
    map[ActivityObjectKey := Text(Some(s.activityObject)),
        LikesCountKey := Long(s.likesCount),
        DislikesCountKey := Long(s.dislikesCount),
        UsernameKey := Text(s.username),
        UserLikeStatusKey := Int(s.userLikeStatus)]
  }

  /** Reads a status back from its map form; None when a key is missing or mistyped. */
  function FromMap(m: map<string, MapValue>): (r: Option<LikeStatus>)
    ensures r.Some? ==> ActivityObjectKey in m && LikesCountKey in m && DislikesCountKey in m
                        && UsernameKey in m && UserLikeStatusKey in m
  {
    if ActivityObjectKey in m && m[ActivityObjectKey].Text? && m[ActivityObjectKey].text.Some?
       && LikesCountKey in m && m[LikesCountKey].Long?
       && DislikesCountKey in m && m[DislikesCountKey].Long?
       && UsernameKey in m && m[UsernameKey].Text?
       && UserLikeStatusKey in m && m[UserLikeStatusKey].Int?
    then Some(LikeStatus(m[ActivityObjectKey].text.value, m[LikesCountKey].long,
                         m[DislikesCountKey].long, m[UsernameKey].text, m[UserLikeStatusKey].number))
    else None
  }

  /** The map holds every field: reading it back gives the same status. */
  lemma MapRoundTrip(s: LikeStatus)
    ensures FromMap(ToMap(s)) == Some(s)
  {
    var m := ToMap(s);
    assert m[ActivityObjectKey] == Text(Some(s.activityObject));
    assert m[LikesCountKey] == Long(s.likesCount);
    assert m[DislikesCountKey] == Long(s.dislikesCount);
    assert m[UsernameKey] == Text(s.username);
    assert m[UserLikeStatusKey] == Int(s.userLikeStatus);
  }

  /** Different statuses have different maps. */
  lemma ToMapInjective(a: LikeStatus, b: LikeStatus)
    ensures ToMap(a) == ToMap(b) <==> a == b
  {
    if ToMap(a) == ToMap(b) {
      MapRoundTrip(a);
      MapRoundTrip(b);
    }
  }
}
