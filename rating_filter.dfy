/**
 * The activity-stream filter for rating activities: which activities it claims, the
 * predicate of each rating query, paging, and the clean-up of ratings whose rated
 * activity (or reply) is removed.
 */
module RatingFilter {
  import opened Wrappers
  import opened Decimal
  import opened Seqs
  import opened Activities
  import opened Ledger

  datatype QueryType =
    | GetActorRatingsForObject
    | GetRatingsForObject
    | GetRatedChildrenForContext
    | GetRatingsForCancel
    | GetLatestRatedForObject

  /** The query parameters; an absent entry of the parameter map is None. */
  datatype QueryParams = QueryParams(
    queryType: Option<QueryType>,
    target: Option<string>,
    aspect: Option<string>,
    actor: Option<string>,
    rating: Option<Int32>,
    context: Option<string>)

  /** The filter claims the activities whose verb is present and starts with the rating prefix. */
  function IsInterestedIn(verb: Option<string>): (b: bool)
    ensures b ==> verb.Some?
    ensures verb.Some? && |verb.value| < |RatingVerbPrefix| ==> !b
  {
    verb.Some? && StartsWith(verb.value, RatingVerbPrefix)
  }

  /** Every verb a rating is written with is claimed by the filter. */
  lemma RatingVerbsAreClaimed(aspect: string)
    ensures IsInterestedIn(Some(RatingVerbPrefix + aspect))
  {
    assert (RatingVerbPrefix + aspect)[..|RatingVerbPrefix|] == RatingVerbPrefix;
  }

  /** A JPQL equality `field = :param`: a null parameter matches nothing. */
  predicate SqlEquals(field: string, param: Option<string>)
  {
    param.Some? && field == param.value
  }

  /** `RATING_VERB_PREFIX + aspect`; Java string concatenation writes "null" for a null aspect. */
  function RatingVerb(aspect: Option<string>): string
  {
    RatingVerbPrefix + (if aspect.Some? then aspect.value else "null")
  }

  /** The optional `object = :rating` clause, the rating compared as decimal text. */
  predicate RatingClause(rating: Option<Int32>, e: Event)
  {
    rating.Some? ==> e.obj == DecimalString(rating.value)
  }

  /** The where-clause of each query type; without a query type nothing matches. */
  predicate Matches(q: QueryParams, e: Event)
  {
    match q.queryType
    case None => false
    case Some(GetActorRatingsForObject) =>
      e.verb == RatingVerb(q.aspect) && SqlEquals(e.actor, q.actor)
      && SqlEquals(e.target, q.target) && e.context.None? && RatingClause(q.rating, e)
    case Some(GetRatingsForObject) =>
      e.verb == RatingVerb(q.aspect) && SqlEquals(e.target, q.target)
      && e.context.None? && RatingClause(q.rating, e)
    case Some(GetRatedChildrenForContext) =>
      e.verb == RatingVerb(q.aspect) && e.context.Some? && SqlEquals(e.context.value, q.context)
      && RatingClause(q.rating, e)
    case Some(GetRatingsForCancel) =>
      SqlEquals(e.target, q.target) && RatingClause(q.rating, e)
      && (q.actor.Some? ==> e.actor == q.actor.value)
      && (if q.aspect.Some? then e.verb == RatingVerbPrefix + q.aspect.value
          else StartsWith(e.verb, RatingVerbPrefix))
    case Some(GetLatestRatedForObject) =>
      StartsWith(e.target, DocPrefix) && e.context.None?
      && SqlEquals(e.actor, q.actor) && e.verb == RatingVerb(q.aspect)
  }

  function Matcher(q: QueryParams): Event -> bool
  {
    (e: Event) => Matches(q, e)
  }

  /** Sort key of the latest-rated query: publication date, then id, both descending. */
  function LatestKey(e: Event): (int, int)
  {
    (e.published, e.id)
  }

  /** Only the latest-rated query has an ORDER BY; the others keep the store's order. */
  function Ordered(q: QueryParams, matches: seq<Event>): seq<Event>
  {
    if q.queryType == Some(GetLatestRatedForObject) then SortDesc(matches, LatestKey) else matches
  }

  /**
   * The filter's query: no query type gives the empty list; otherwise the matching
   * activities, ordered, then one page of them, with the long offset and limit cast to
   * int as JPA receives them (a negative cast value makes JPA throw).
   */
  function Query(events: seq<Event>, q: QueryParams, offset: int, limit: int): (r: Result<seq<Event>>)
    ensures q.queryType.None? ==> r == Ok([])
    ensures r.Err? <==> q.queryType.Some? && PageBounds(offset, limit).None?
    ensures r.Err? ==> r.error == NegativePageBound
    ensures r.Ok? ==> forall e :: e in r.value ==> e in events && Matches(q, e)
    ensures r.Ok? && limit > 0 && IntCast(limit) > 0 ==> |r.value| <= IntCast(limit) <= limit
    ensures offset <= 0 && limit <= 0 ==> r.Ok? && multiset(r.value) == multiset(Filter(events, Matcher(q)))
    ensures r.Ok? && q.queryType == Some(GetLatestRatedForObject) ==> SortedDesc(r.value, LatestKey)
    ensures q.queryType.Some? && q.queryType != Some(GetLatestRatedForObject) && offset <= 0 && limit <= 0
            ==> r == Ok(Filter(events, Matcher(q)))
    ensures q.queryType.Some? && PageBounds(offset, limit).Some? ==>
              var (first, max) := PageBounds(offset, limit).value;
              var ordered := Ordered(q, Filter(events, Matcher(q)));
              var k := Skip(|ordered|, first);
              r.Ok?
              && |r.value| == (if 0 < max < |ordered| - k then max else |ordered| - k)
              && forall i :: 0 <= i < |r.value| ==> r.value[i] == ordered[k + i]
  {
    if q.queryType.None? then
      FilterNone(events, Matcher(q));
      Ok([])
    else
      match PageBounds(offset, limit)
      case None => Err(NegativePageBound)
      case Some((first, max)) =>
        var matches := Filter(events, Matcher(q));
        QueryWithinMatches(matches, q, first, max);
        Ok(Page(Ordered(q, matches), first, max))
  }

  lemma QueryWithinMatches(matches: seq<Event>, q: QueryParams, offset: int, limit: int)
    ensures forall e :: e in Page(Ordered(q, matches), offset, limit) ==> e in matches
  {
    var ordered := Ordered(q, matches);
    assert multiset(ordered) == multiset(matches);
    forall e | e in Page(ordered, offset, limit)
      ensures e in matches
    {
      PageWithin(ordered, offset, limit, e);
      assert e in multiset(ordered);
    }
  }

  /** The actor query: one user's primary ratings of a target under an aspect. */
  function ActorQuery(username: string, target: string, aspect: string, rating: Option<Int32>): QueryParams
  {
    QueryParams(Some(GetActorRatingsForObject), Some(target), Some(aspect),
                Some(UserActivityObject(username)), rating, None)
  }

  /** The object query: every primary rating of a target under an aspect. */
  function ObjectQuery(target: string, aspect: string, rating: Option<Int32>): QueryParams
  {
    QueryParams(Some(GetRatingsForObject), Some(target), Some(aspect), None, rating, None)
  }

  /** The actor query selects a sub-list of what the object query selects. */
  lemma ActorQueryWithinObjectQuery(events: seq<Event>, username: string, target: string,
                                    aspect: string, rating: Option<Int32>)
    ensures forall e :: e in Query(events, ActorQuery(username, target, aspect, rating), 0, 0).value ==>
                        e in Query(events, ObjectQuery(target, aspect, rating), 0, 0).value
    ensures |Filter(events, Matcher(ActorQuery(username, target, aspect, rating)))|
         <= |Filter(events, Matcher(ObjectQuery(target, aspect, rating)))|
  {
    var a := ActorQuery(username, target, aspect, rating);
    var o := ObjectQuery(target, aspect, rating);
    FilterMonotone(events, Matcher(a), Matcher(o));
    forall e | e in Query(events, a, 0, 0).value
      ensures e in Query(events, o, 0, 0).value
    {
      assert e in Filter(events, Matcher(o));
      assert e in multiset(Query(events, o, 0, 0).value);
    }
  }

  /** Adding a rating clause narrows a query. */
  lemma RatingClauseNarrows(events: seq<Event>, username: string, target: string,
                            aspect: string, rating: Int32)
    ensures |Filter(events, Matcher(ObjectQuery(target, aspect, Some(rating))))|
         <= |Filter(events, Matcher(ObjectQuery(target, aspect, None)))|
    ensures |Filter(events, Matcher(ActorQuery(username, target, aspect, Some(rating))))|
         <= |Filter(events, Matcher(ActorQuery(username, target, aspect, None)))|
  {
    FilterMonotone(events, Matcher(ObjectQuery(target, aspect, Some(rating))),
                   Matcher(ObjectQuery(target, aspect, None)));
    FilterMonotone(events, Matcher(ActorQuery(username, target, aspect, Some(rating))),
                   Matcher(ActorQuery(username, target, aspect, None)));
  }

  /** A removed activity together with the ids of its replies. */
  datatype RemovedActivity = RemovedActivity(id: int, replyIds: seq<string>)

  /** Targets of one removed activity: its own activity object, then one per reply. */
  function TargetsOf(a: RemovedActivity): seq<string>
  {
    [ActivityObject(a.id)] + ReplyObjects(a.replyIds)
  }

  function ReplyObjects(replyIds: seq<string>): (r: seq<string>)
    ensures |r| == |replyIds|
    ensures forall i :: 0 <= i < |r| ==> r[i] == ReplyActivityObject(replyIds[i])
  {
    if replyIds == [] then []
    else ReplyObjects(replyIds[..|replyIds| - 1]) + [ReplyActivityObject(replyIds[|replyIds| - 1])]
  }

  /** Targets of a list of removed activities, in the order the handler collects them. */
  function RemovedTargets(activities: seq<RemovedActivity>): seq<string>
  {
    if activities == [] then []
    else RemovedTargets(activities[..|activities| - 1]) + TargetsOf(activities[|activities| - 1])
  }

  /** Every removed activity and every one of its replies is among the collected targets. */
  lemma {:induction false} RemovedTargetsCover(activities: seq<RemovedActivity>)
    ensures forall a :: a in activities ==> ActivityObject(a.id) in RemovedTargets(activities)
    ensures forall a, r :: a in activities && r in a.replyIds ==>
                           ReplyActivityObject(r) in RemovedTargets(activities)
  {
    if activities != [] {
      var init := activities[..|activities| - 1];
      var last := activities[|activities| - 1];
      RemovedTargetsCover(init);
      assert activities == init + [last];
      forall r | r in last.replyIds
        ensures ReplyActivityObject(r) in TargetsOf(last)
      {
        var i :| 0 <= i < |last.replyIds| && last.replyIds[i] == r;
        assert ReplyObjects(last.replyIds)[i] == ReplyActivityObject(r);
      }
    }
  }

  lemma RemovedTargetsStep(activities: seq<RemovedActivity>, i: nat, before: seq<string>)
    requires i < |activities| && before == RemovedTargets(activities[..i])
    ensures RemovedTargets(activities[..i + 1])
            == before + [ActivityObject(activities[i].id)] + ReplyObjects(activities[i].replyIds)
  {
    assert activities[..i + 1][..i] == activities[..i];
  }

  lemma ReplyObjectsStep(replyIds: seq<string>, j: nat)
    requires j < |replyIds|
    ensures ReplyObjects(replyIds[..j + 1]) == ReplyObjects(replyIds[..j]) + [ReplyActivityObject(replyIds[j])]
  {
    assert replyIds[..j + 1][..j] == replyIds[..j];
  }

  /** A rating activity (claimed by the filter) whose target is one of `targets`. */
  predicate IsRatingOn(targets: seq<string>, e: Event)
  {
    IsInterestedIn(Some(e.verb)) && e.target in targets
  }

  function RatingOn(targets: seq<string>): Event -> bool
  {
    (e: Event) => IsRatingOn(targets, e)
  }

  /** Deletes every rating activity whose target is one of `targets`. */
  method RemoveAllRatingActivitiesFor(store: Ledger, targets: seq<string>)
    requires store.Valid()
    modifies store
    ensures store.Valid() && store.nextId == old(store.nextId)
    ensures store.events == Reject(old(store.events), RatingOn(targets))
  {
    store.DeleteWhere(RatingOn(targets));
  }

  /** The handler's loop: each removed activity's object, followed by its replies' objects. */
  method CollectRemovedTargets(activities: seq<RemovedActivity>) returns (targets: seq<string>)
    ensures targets == RemovedTargets(activities)
  {
    targets := [];
    var i := 0;
    while i < |activities|
      invariant 0 <= i <= |activities|
      invariant targets == RemovedTargets(activities[..i])
    {
      RemovedTargetsStep(activities, i, targets);
      targets := AddReplyTargets(targets + [ActivityObject(activities[i].id)], activities[i].replyIds);
      i := i + 1;
    }
    assert activities[..i] == activities;
  }

  /** The handler's inner loop: appends the object of each reply. */
  method AddReplyTargets(targets: seq<string>, replyIds: seq<string>) returns (r: seq<string>)
    ensures r == targets + ReplyObjects(replyIds)
  {
    r := targets;
    var j := 0;
    while j < |replyIds|
      invariant 0 <= j <= |replyIds|
      invariant r == targets + ReplyObjects(replyIds[..j])
    {
      ReplyObjectsStep(replyIds, j);
      r := r + [ReplyActivityObject(replyIds[j])];
      j := j + 1;
    }
    assert replyIds[..j] == replyIds;
  }

  /** Collects the targets of the removed activities and their replies, then deletes their ratings. */
  method HandleRemovedActivities(store: Ledger, activities: seq<RemovedActivity>)
    requires store.Valid()
    modifies store
    ensures store.Valid() && store.nextId == old(store.nextId)
    ensures store.events == Reject(old(store.events), RatingOn(RemovedTargets(activities)))
  {
    var targets := CollectRemovedTargets(activities);
    RemoveAllRatingActivitiesFor(store, targets);
  }

  /** Deletes the ratings of one removed reply. */
  method HandleRemovedActivityReply(store: Ledger, replyId: string)
    requires store.Valid()
    modifies store
    ensures store.Valid() && store.nextId == old(store.nextId)
    ensures store.events == Reject(old(store.events), RatingOn([ReplyActivityObject(replyId)]))
  {
    RemoveAllRatingActivitiesFor(store, [ReplyActivityObject(replyId)]);
  }

  /**
   * After removing activities, no rating of a removed activity or of one of its
   * replies is left, and every other activity is kept.
   */
  lemma RemovedActivitiesLoseTheirRatings(before: seq<Event>, activities: seq<RemovedActivity>)
    ensures var after := Reject(before, RatingOn(RemovedTargets(activities)));
      && (forall e, a :: e in after && a in activities && IsInterestedIn(Some(e.verb)) ==>
            e.target != ActivityObject(a.id))
      && (forall e, a, r :: e in after && a in activities && r in a.replyIds && IsInterestedIn(Some(e.verb)) ==>
            e.target != ReplyActivityObject(r))
      && (forall e :: e in before && !IsRatingOn(RemovedTargets(activities), e) ==> e in after)
  {
    RemovedTargetsCover(activities);
  }

  /** Removing a reply keeps every activity that is not a rating of that reply. */
  lemma RemovedReplyKeepsOthers(before: seq<Event>, replyId: string)
    ensures var after := Reject(before, RatingOn([ReplyActivityObject(replyId)]));
      && (forall e :: e in after ==> !(IsInterestedIn(Some(e.verb)) && e.target == ReplyActivityObject(replyId)))
      && (forall e :: e in before && e.target != ReplyActivityObject(replyId) ==> e in after)
      && (forall e :: e in before && !IsInterestedIn(Some(e.verb)) ==> e in after)
  {
  }
}
