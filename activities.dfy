/**
 * Activities of the activity stream that the rating code reads and writes, and the
 * textual identifiers ("activity objects") it builds for users, documents and activities.
 */
module Activities {
  import opened Wrappers
  import opened Decimal

  /**
   * One activity of the stream. A rating is an activity whose verb is the rating
   * prefix followed by the aspect, whose actor is the rater's user object, whose target
   * is the rated object and whose object (`obj`) is the rating value as text. `context` is
   * absent for a primary rating and names an ancestor container for a companion one.
   */
  datatype Event = Event(
    id: int,
    actor: string,
    verb: string,
    target: string,
    obj: string,
    context: Option<string>,
    published: int)

  /** Prefix of every rating verb; the aspect follows it. */
  const RatingVerbPrefix: string := "org.nuxeo.rating."

  /** The aspect under which likes and dislikes are stored. */
  const LikeAspect: string := "like"

  /** Verb of a short message posted in a container. */
  const MiniMessageVerb: string := "minimessage"

  const UserPrefix: string := "user:"
  const DocPrefix: string := "doc:"
  const ActivityPrefix: string := "activity:"

  predicate StartsWith(s: string, prefix: string)
  {
    |prefix| <= |s| && s[..|prefix|] == prefix
  }

  /** Actor string of a user. */
  function UserActivityObject(username: string): string
  {
    UserPrefix + username
  }

  /** Target string of an activity, from its numeric id. */
  function ActivityObject(id: int): string
  {
    ActivityPrefix + DecimalString(id)
  }

  /** Target string of an activity reply, from its textual id. */
  function ReplyActivityObject(replyId: string): string
  {
    ActivityPrefix + replyId
  }

  /** Prepending one prefix keeps distinct strings distinct. */
  lemma PrefixedInjective(prefix: string, a: string, b: string)
    ensures prefix + a == prefix + b <==> a == b
  {
    if prefix + a == prefix + b {
      assert a == (prefix + a)[|prefix|..];
      assert b == (prefix + b)[|prefix|..];
    }
  }

  /** Two users have the same actor string only if they have the same name. */
  lemma UserActivityObjectInjective(u: string, v: string)
    ensures UserActivityObject(u) == UserActivityObject(v) <==> u == v
  {
    PrefixedInjective(UserPrefix, u, v);
  }
}
