/**
 * The rating service: write a rating, cancel a user's ratings, and the counts and
 * averages computed from the rating filter's queries. Read-only operations take the
 * store's current activities; writing operations take the store.
 */
module RatingService {
  import opened Wrappers
  import opened Decimal
  import opened Seqs
  import opened Activities
  import opened Ledger
  import opened RatingFilter

  /** The activity `rate` adds: no context, the rating as decimal text. */
  function RatingEvent(id: int, username: string, rating: Int32, target: string,
                       aspect: string, published: int): Event
  {
    Event(id, UserActivityObject(username), RatingVerbPrefix + aspect, target,
          DecimalString(rating), None, published)
  }

  /** What the actor query selects: one user's primary ratings of a target under an aspect. */
  function ActorMatcher(username: string, target: string, aspect: string): Event -> bool
  {
    Matcher(ActorQuery(username, target, aspect, None))
  }

  /** What the object query selects: all primary ratings of a target under an aspect. */
  function ObjectMatcher(target: string, aspect: string): Event -> bool
  {
    Matcher(ObjectQuery(target, aspect, None))
  }

  /** Adds one rating activity; `now` is the clock reading the store stamps it with. */
  method Rate(store: Ledger, username: string, rating: Int32, activityObject: string,
              aspect: string, now: int)
    requires store.Valid()
    modifies store
    ensures store.Valid() && store.nextId == old(store.nextId) + 1
    ensures store.events == old(store.events)
                            + [RatingEvent(old(store.nextId), username, rating, activityObject, aspect, now)]
  {
    var _ := store.AddActivity(UserActivityObject(username), RatingVerbPrefix + aspect,
                               activityObject, DecimalString(rating), None, now);
  }

  /** Removes the activities the actor query selects, by their ids. */
  method CancelRate(store: Ledger, username: string, activityObject: string, aspect: string)
    requires store.Valid()
    modifies store
    ensures store.Valid() && store.nextId == old(store.nextId)
    ensures store.events == Reject(old(store.events), ActorMatcher(username, activityObject, aspect))
  {
    var q := ActorQuery(username, activityObject, aspect, None);
    var activities := Query(store.events, q, 0, 0).value;
    RemoveSelectedIds(store.events, Matcher(q));
    store.RemoveActivities(IdsOf(activities));
  }

  /** An event the actor query selects, spelled out. */
  predicate IsUserRating(e: Event, username: string, target: string, aspect: string)
  {
    e.verb == RatingVerbPrefix + aspect && e.actor == UserActivityObject(username)
    && e.target == target && e.context.None?
  }

  /** An event the object query selects, spelled out. */
  predicate IsPrimaryRating(e: Event, target: string, aspect: string)
  {
    e.verb == RatingVerbPrefix + aspect && e.target == target && e.context.None?
  }

  lemma ActorMatcherIs(e: Event, username: string, target: string, aspect: string)
    ensures ActorMatcher(username, target, aspect)(e) <==> IsUserRating(e, username, target, aspect)
  {
  }

  lemma ObjectMatcherIs(e: Event, target: string, aspect: string)
    ensures ObjectMatcher(target, aspect)(e) <==> IsPrimaryRating(e, target, aspect)
  {
  }

  lemma ValueMatcherIs(e: Event, target: string, aspect: string, rating: Int32)
    ensures Matcher(ObjectQuery(target, aspect, Some(rating)))(e)
            <==> IsPrimaryRating(e, target, aspect) && e.obj == DecimalString(rating)
  {
  }

  /** The object query selects exactly the primary ratings of the target. */
  lemma ObjectQueryContents(events: seq<Event>, target: string, aspect: string)
    ensures forall e :: e in Filter(events, ObjectMatcher(target, aspect))
                        <==> e in events && IsPrimaryRating(e, target, aspect)
  {
    forall e | e in events
      ensures ObjectMatcher(target, aspect)(e) <==> IsPrimaryRating(e, target, aspect)
    {
      ObjectMatcherIs(e, target, aspect);
    }
  }

  /** The actor query selects exactly the user's primary ratings of the target. */
  lemma ActorQueryContents(events: seq<Event>, username: string, target: string, aspect: string)
    ensures forall e :: e in Filter(events, ActorMatcher(username, target, aspect))
                        <==> e in events && IsUserRating(e, username, target, aspect)
  {
    forall e | e in events
      ensures ActorMatcher(username, target, aspect)(e) <==> IsUserRating(e, username, target, aspect)
    {
      ActorMatcherIs(e, username, target, aspect);
    }
  }

  lemma ObjectQueryNonEmpty(events: seq<Event>, target: string, aspect: string)
    ensures |Filter(events, ObjectMatcher(target, aspect))| > 0
            <==> exists e :: e in events && IsPrimaryRating(e, target, aspect)
  {
    var r := Filter(events, ObjectMatcher(target, aspect));
    ObjectQueryContents(events, target, aspect);
    if |r| > 0 {
      assert r[0] in r;
    }
    if e :| e in events && IsPrimaryRating(e, target, aspect) {
      assert e in r;
    }
  }

  lemma ActorQueryNonEmpty(events: seq<Event>, username: string, target: string, aspect: string)
    ensures |Filter(events, ActorMatcher(username, target, aspect))| > 0
            <==> exists e :: e in events && IsUserRating(e, username, target, aspect)
  {
    var r := Filter(events, ActorMatcher(username, target, aspect));
    ActorQueryContents(events, username, target, aspect);
    if |r| > 0 {
      assert r[0] in r;
    }
    if e :| e in events && IsUserRating(e, username, target, aspect) {
      assert e in r;
    }
  }

  /** getRatesCount(target, aspect): the number of primary ratings of the target. */
  function RatesCount(events: seq<Event>, target: string, aspect: string): (n: nat)
    ensures n > 0 <==> exists e :: e in events && IsPrimaryRating(e, target, aspect)
  {
    ObjectQueryNonEmpty(events, target, aspect);
    |Query(events, ObjectQuery(target, aspect, None), 0, 0).value|
  }

  /** getRatesCount(target, rating, aspect): those whose value is `rating`. */
  function RatesCountWithValue(events: seq<Event>, target: string, rating: Int32, aspect: string): (n: nat)
    ensures n <= RatesCount(events, target, aspect)
  {
    RatingClauseNarrows(events, "", target, aspect, rating);
    |Query(events, ObjectQuery(target, aspect, Some(rating)), 0, 0).value|
  }

  /** getRatesCountForUser(username, target, aspect): the user's primary ratings of the target. */
  function RatesCountForUser(events: seq<Event>, username: string, target: string, aspect: string): (n: nat)
    ensures n <= RatesCount(events, target, aspect)
  {
    ActorQueryWithinObjectQuery(events, username, target, aspect, None);
    |Query(events, ActorQuery(username, target, aspect, None), 0, 0).value|
  }

  /** getRatesCountForUser(username, target, rating, aspect): the user's ratings with value `rating`. */
  function RatesCountForUserWithValue(events: seq<Event>, username: string, target: string,
                                      rating: Int32, aspect: string): (n: nat)
    ensures n <= RatesCountForUser(events, username, target, aspect)
    ensures n <= RatesCountWithValue(events, target, rating, aspect)
  {
    RatingClauseNarrows(events, username, target, aspect, rating);
    ActorQueryWithinObjectQuery(events, username, target, aspect, Some(rating));
    |Query(events, ActorQuery(username, target, aspect, Some(rating)), 0, 0).value|
  }

  /** hasUserRated: the actor query is not empty. */
  function HasUserRated(events: seq<Event>, username: string, target: string, aspect: string): (b: bool)
    ensures b <==> RatesCountForUser(events, username, target, aspect) > 0
    ensures b <==> exists e :: e in events && IsUserRating(e, username, target, aspect)
  {
    ActorQueryNonEmpty(events, username, target, aspect);
    |Query(events, ActorQuery(username, target, aspect, None), 0, 0).value| > 0
  }

  /** Without paging, each count is the size of its selection. */
  lemma RatesCountIsSelectionSize(events: seq<Event>, target: string, aspect: string)
    ensures RatesCount(events, target, aspect) == |Filter(events, ObjectMatcher(target, aspect))|
  {
  }

  lemma RatesCountForUserIsSelectionSize(events: seq<Event>, username: string, target: string, aspect: string)
    ensures RatesCountForUser(events, username, target, aspect)
            == |Filter(events, ActorMatcher(username, target, aspect))|
  {
  }

  lemma RatesCountWithValueIsSelectionSize(events: seq<Event>, target: string, rating: Int32, aspect: string)
    ensures RatesCountWithValue(events, target, rating, aspect)
            == |Filter(events, Matcher(ObjectQuery(target, aspect, Some(rating))))|
  {
  }

  /**
   * The average of a list of ratings: the sum of the values that parse as an int,
   * over the number of ratings. Over no rating it is undefined (0/0 in the source).
   */
  datatype Average = Undefined | Quotient(sum: int, count: nat)
  {
    /** `average > 0` on the source's double; false for 0/0. */
    predicate IsPositive() { Quotient? && count > 0 && sum > 0 }
    /** `average < 0` on the source's double; false for 0/0. */
    predicate IsNegative() { Quotient? && count > 0 && sum < 0 }
  }

  /** A rating's contribution to the sum: its parsed value, or 0 when it does not parse. */
  function ParsedValue(e: Event): int
  {
    match ParseInt(e.obj)
    case Some(v) => v
    case None => 0
  }

  function SumOfValues(activities: seq<Event>): int
  {
    if activities == [] then 0
    else SumOfValues(activities[..|activities| - 1]) + ParsedValue(activities[|activities| - 1])
  }

  /** The average computeAverage produces, exact and with the empty case explicit. */
  function AverageOf(activities: seq<Event>): (a: Average)
    ensures a.Undefined? <==> activities == []
    ensures a.Quotient? ==> a.count == |activities| > 0
  {
    if activities == [] then Undefined else Quotient(SumOfValues(activities), |activities|)
  }

  /** computeAverage: accumulates the parsed values, skipping those that do not parse. */
  method ComputeAverage(activities: seq<Event>) returns (average: Average)
    ensures average == AverageOf(activities)
  {
    var sum := 0;
    var i := 0;
    while i < |activities|
      invariant 0 <= i <= |activities|
      invariant sum == SumOfValues(activities[..i])
    {
      var parsed := ParseInt(activities[i].obj);
      if parsed.Some? {
        sum := sum + parsed.value;
      }
      assert activities[..i + 1][..i] == activities[..i];
      i := i + 1;
    }
    assert activities[..i] == activities;
    average := if |activities| == 0 then Undefined else Quotient(sum, |activities|);
  }

  /** getAverageRating(target, aspect). */
  method GetAverageRating(events: seq<Event>, target: string, aspect: string) returns (average: Average)
    ensures average == AverageOf(Filter(events, ObjectMatcher(target, aspect)))
  {
    var activities := Query(events, ObjectQuery(target, aspect, None), 0, 0).value;
    average := ComputeAverage(activities);
  }

  /** getAverageRatingForUser(username, target, aspect). */
  method GetAverageRatingForUser(events: seq<Event>, username: string, target: string, aspect: string)
    returns (average: Average)
    ensures average == AverageOf(Filter(events, ActorMatcher(username, target, aspect)))
  {
    var activities := Query(events, ActorQuery(username, target, aspect, None), 0, 0).value;
    average := ComputeAverage(activities);
  }

  /** A value that does not parse adds nothing to the sum but one to the count. */
  lemma UnparseableCountsInDenominator(activities: seq<Event>, e: Event)
    requires ParseInt(e.obj).None?
    ensures AverageOf(activities + [e]) == Quotient(SumOfValues(activities), |activities| + 1)
  {
    assert (activities + [e])[..|activities|] == activities;
  }

  /** A parsed value adds itself to the sum and one to the count. */
  lemma ParsedValueAddsToSum(activities: seq<Event>, e: Event, v: int)
    requires ParseInt(e.obj) == Some(v)
    ensures AverageOf(activities + [e]) == Quotient(SumOfValues(activities) + v, |activities| + 1)
  {
    assert (activities + [e])[..|activities|] == activities;
  }

  /** A rating written by `rate` contributes exactly its value. */
  lemma RatingEventValue(id: int, username: string, rating: Int32, target: string, aspect: string, t: int)
    ensures ParsedValue(RatingEvent(id, username, rating, target, aspect, t)) == rating
  {
    ParseDecimalRoundTrip(rating);
  }

  /** Rating once more adds one to the user's count. */
  lemma RateAddsToUserCount(events: seq<Event>, id: int, username: string, rating: Int32,
                            target: string, aspect: string, t: int)
    ensures var after := events + [RatingEvent(id, username, rating, target, aspect, t)];
            RatesCountForUser(after, username, target, aspect)
            == RatesCountForUser(events, username, target, aspect) + 1
  {
    var e := RatingEvent(id, username, rating, target, aspect, t);
    RatesCountForUserIsSelectionSize(events, username, target, aspect);
    RatesCountForUserIsSelectionSize(events + [e], username, target, aspect);
    ActorMatcherIs(e, username, target, aspect);
    FilterSnocCount(events, e, ActorMatcher(username, target, aspect));
  }

  /** Rating once more adds one to the target's count under that aspect. */
  lemma RateAddsToCount(events: seq<Event>, id: int, username: string, rating: Int32,
                        target: string, aspect: string, t: int)
    ensures var after := events + [RatingEvent(id, username, rating, target, aspect, t)];
            RatesCount(after, target, aspect) == RatesCount(events, target, aspect) + 1
  {
    var e := RatingEvent(id, username, rating, target, aspect, t);
    RatesCountIsSelectionSize(events, target, aspect);
    RatesCountIsSelectionSize(events + [e], target, aspect);
    ObjectMatcherIs(e, target, aspect);
    FilterSnocCount(events, e, ObjectMatcher(target, aspect));
  }

  /** Rating once more adds one to the count of that value. */
  lemma RateAddsToValueCount(events: seq<Event>, id: int, username: string, rating: Int32,
                             target: string, aspect: string, t: int)
    ensures var after := events + [RatingEvent(id, username, rating, target, aspect, t)];
            RatesCountWithValue(after, target, rating, aspect)
            == RatesCountWithValue(events, target, rating, aspect) + 1
  {
    var e := RatingEvent(id, username, rating, target, aspect, t);
    var m := Matcher(ObjectQuery(target, aspect, Some(rating)));
    assert |Filter(events + [e], m)| == |Filter(events, m)| + 1 by {
      ValueMatcherIs(e, target, aspect, rating);
      FilterSnocCount(events, e, m);
    }
    RatesCountWithValueIsSelectionSize(events, target, rating, aspect);
    RatesCountWithValueIsSelectionSize(events + [e], target, rating, aspect);
  }

  /** Rating with one value leaves the count of every other value unchanged. */
  lemma RateKeepsOtherValues(events: seq<Event>, id: int, username: string, rating: Int32,
                             target: string, aspect: string, t: int, other: Int32)
    requires other != rating
    ensures var after := events + [RatingEvent(id, username, rating, target, aspect, t)];
            RatesCountWithValue(after, target, other, aspect)
            == RatesCountWithValue(events, target, other, aspect)
  {
    var e := RatingEvent(id, username, rating, target, aspect, t);
    RatesCountWithValueIsSelectionSize(events, target, other, aspect);
    RatesCountWithValueIsSelectionSize(events + [e], target, other, aspect);
    ValueMatcherIs(e, target, aspect, other);
    DecimalStringInjective(rating, other);
    FilterSnocCount(events, e, Matcher(ObjectQuery(target, aspect, Some(other))));
  }

  /** Rating under one aspect leaves every other aspect's count unchanged. */
  lemma RateKeepsOtherAspects(events: seq<Event>, id: int, username: string, rating: Int32,
                              target: string, aspect: string, t: int, other: string)
    requires other != aspect
    ensures var after := events + [RatingEvent(id, username, rating, target, aspect, t)];
            RatesCount(after, target, other) == RatesCount(events, target, other)
  {
    var e := RatingEvent(id, username, rating, target, aspect, t);
    RatesCountIsSelectionSize(events, target, other);
    RatesCountIsSelectionSize(events + [e], target, other);
    ObjectMatcherIs(e, target, other);
    PrefixedInjective(RatingVerbPrefix, aspect, other);
    FilterSnocCount(events, e, ObjectMatcher(target, other));
  }

  /** After rating, the user has rated. */
  lemma RateMeansRated(events: seq<Event>, id: int, username: string, rating: Int32,
                       target: string, aspect: string, t: int)
    ensures HasUserRated(events + [RatingEvent(id, username, rating, target, aspect, t)],
                         username, target, aspect)
  {
    var e := RatingEvent(id, username, rating, target, aspect, t);
    assert e in events + [e] && IsUserRating(e, username, target, aspect);
  }

  /**
   * After cancelRate the user has no rating left on that target and aspect, the
   * target's count drops by exactly the user's count, and the actor query of any other
   * (user, target, aspect) selects what it selected before.
   */
  lemma CancelRateEffect(events: seq<Event>, username: string, target: string, aspect: string,
                         username': string, target': string, aspect': string)
    requires username' != username || target' != target || aspect' != aspect
    ensures var after := Reject(events, ActorMatcher(username, target, aspect));
      && !HasUserRated(after, username, target, aspect)
      && RatesCount(after, target, aspect)
         == RatesCount(events, target, aspect) - RatesCountForUser(events, username, target, aspect)
      && Filter(after, ActorMatcher(username', target', aspect'))
         == Filter(events, ActorMatcher(username', target', aspect'))
  {
    var p := ActorMatcher(username, target, aspect);
    RejectLeavesNoMatch(events, p);
    RejectCount(events, p, ObjectMatcher(target, aspect));
    forall e | e in events
      ensures Both(p, ObjectMatcher(target, aspect))(e) == p(e)
    {
      ActorMatcherIs(e, username, target, aspect);
      ObjectMatcherIs(e, target, aspect);
    }
    FilterAgree(events, Both(p, ObjectMatcher(target, aspect)), p);
    forall e | e in events && ActorMatcher(username', target', aspect')(e)
      ensures !p(e)
    {
      UserActivityObjectInjective(username, username');
      PrefixedInjective(RatingVerbPrefix, aspect, aspect');
    }
    FilterRejectDisjoint(events, p, ActorMatcher(username', target', aspect'));
  }

  /** cancelRate on another aspect of the same target leaves this aspect's count alone. */
  lemma CancelRateKeepsOtherAspects(events: seq<Event>, username: string, target: string,
                                    aspect: string, other: string)
    requires other != aspect
    ensures RatesCount(Reject(events, ActorMatcher(username, target, other)), target, aspect)
         == RatesCount(events, target, aspect)
  {
    var p := ActorMatcher(username, target, other);
    forall e | e in events && ObjectMatcher(target, aspect)(e)
      ensures !p(e)
    {
      PrefixedInjective(RatingVerbPrefix, aspect, other);
    }
    FilterRejectDisjoint(events, p, ObjectMatcher(target, aspect));
  }

  /** A second cancelRate removes nothing. */
  lemma CancelRateIdempotent(events: seq<Event>, username: string, target: string, aspect: string)
    ensures var once := Reject(events, ActorMatcher(username, target, aspect));
            Reject(once, ActorMatcher(username, target, aspect)) == once
  {
    RejectIdempotent(events, ActorMatcher(username, target, aspect));
  }

  /** The sum over `values` of getRatesCount(target, value, aspect). */
  function ValueCounts(events: seq<Event>, target: string, values: seq<Int32>, aspect: string): nat
  {
    if values == [] then 0
    else RatesCountWithValue(events, target, values[0], aspect) + ValueCounts(events, target, values[1..], aspect)
  }

  /** How many of `values` an event is a primary rating with. */
  function Hits(e: Event, target: string, values: seq<Int32>, aspect: string): nat
  {
    if values == [] then 0
    else (if IsPrimaryRating(e, target, aspect) && e.obj == DecimalString(values[0]) then 1 else 0)
         + Hits(e, target, values[1..], aspect)
  }

  lemma {:induction false} ValueCountsEmpty(target: string, values: seq<Int32>, aspect: string)
    ensures ValueCounts([], target, values, aspect) == 0
  {
    if values != [] {
      RatesCountWithValueIsSelectionSize([], target, values[0], aspect);
      ValueCountsEmpty(target, values[1..], aspect);
    }
  }

  lemma {:induction false} ValueCountsSnoc(events: seq<Event>, e: Event, target: string,
                                          values: seq<Int32>, aspect: string)
    ensures ValueCounts(events + [e], target, values, aspect)
         == ValueCounts(events, target, values, aspect) + Hits(e, target, values, aspect)
  {
    if values != [] {
      var v := values[0];
      RatesCountWithValueIsSelectionSize(events, target, v, aspect);
      RatesCountWithValueIsSelectionSize(events + [e], target, v, aspect);
      ValueMatcherIs(e, target, aspect, v);
      FilterSnocCount(events, e, Matcher(ObjectQuery(target, aspect, Some(v))));
      ValueCountsSnoc(events, e, target, values[1..], aspect);
    }
  }

  lemma {:induction false} HitsNone(e: Event, target: string, values: seq<Int32>, aspect: string)
    requires !IsPrimaryRating(e, target, aspect) || forall v :: v in values ==> e.obj != DecimalString(v)
    ensures Hits(e, target, values, aspect) == 0
  {
    if values != [] {
      assert values[0] in values;
      HitsNone(e, target, values[1..], aspect);
    }
  }

  /** The event's text is the decimal text of one of `values`. */
  predicate HasValueIn(e: Event, values: seq<Int32>)
  {
    exists v :: v in values && e.obj == DecimalString(v)
  }

  /** With distinct values, a primary rating whose text is one of them is counted once. */
  lemma {:induction false} HitsOne(e: Event, target: string, values: seq<Int32>, aspect: string)
    requires Distinct(values)
    requires IsPrimaryRating(e, target, aspect)
    requires HasValueIn(e, values)
    ensures Hits(e, target, values, aspect) == 1
  {
    var v :| v in values && e.obj == DecimalString(v);
    if values[0] == v {
      forall w | w in values[1..]
        ensures e.obj != DecimalString(w)
      {
        DecimalStringInjective(v, w);
      }
      HitsNone(e, target, values[1..], aspect);
    } else {
      DecimalStringInjective(v, values[0]);
      assert v in values[1..];
      HitsOne(e, target, values[1..], aspect);
    }
  }

  /**
   * When every primary rating of the target carries the text of one of a list of
   * distinct values (as every rating written by `rate` does), getRatesCount(target,
   * aspect) is the sum of getRatesCount(target, v, aspect) over those values.
   */
  lemma {:induction false} RatesCountIsSumOverValues(events: seq<Event>, target: string,
                                                      values: seq<Int32>, aspect: string)
    requires Distinct(values)
    requires forall e :: e in events && IsPrimaryRating(e, target, aspect) ==> HasValueIn(e, values)
    ensures RatesCount(events, target, aspect) == ValueCounts(events, target, values, aspect)
  {
    if events == [] {
      RatesCountIsSelectionSize(events, target, aspect);
      ValueCountsEmpty(target, values, aspect);
    } else {
      var init, e := events[..|events| - 1], events[|events| - 1];
      SplitLast(events);
      assert forall x :: x in init ==> x in events;
      assert e in events;
      RatesCountIsSumOverValues(init, target, values, aspect);
      RatesCountSumStep(init, e, target, values, aspect);
    }
  }

  lemma RatesCountSumStep(init: seq<Event>, e: Event, target: string, values: seq<Int32>, aspect: string)
    requires Distinct(values)
    requires IsPrimaryRating(e, target, aspect) ==> HasValueIn(e, values)
    requires RatesCount(init, target, aspect) == ValueCounts(init, target, values, aspect)
    ensures RatesCount(init + [e], target, aspect) == ValueCounts(init + [e], target, values, aspect)
  {
    RatesCountIsSelectionSize(init, target, aspect);
    RatesCountIsSelectionSize(init + [e], target, aspect);
    ValueCountsSnoc(init, e, target, values, aspect);
    ObjectMatcherIs(e, target, aspect);
    FilterSnocCount(init, e, ObjectMatcher(target, aspect));
    if IsPrimaryRating(e, target, aspect) {
      HitsOne(e, target, values, aspect);
    } else {
      HitsNone(e, target, values, aspect);
    }
  }

  /** Three users rate 5, 2 and 3: the average is 10/3. */
  lemma AverageOfFiveTwoThree(target: string, aspect: string, t: int)
    ensures var events := [RatingEvent(0, "bender", 5, target, aspect, t),
                           RatingEvent(1, "fry", 2, target, aspect, t),
                           RatingEvent(2, "leela", 3, target, aspect, t)];
            AverageOf(Filter(events, ObjectMatcher(target, aspect))) == Quotient(10, 3)
  {
    var a := RatingEvent(0, "bender", 5, target, aspect, t);
    var b := RatingEvent(1, "fry", 2, target, aspect, t);
    var c := RatingEvent(2, "leela", 3, target, aspect, t);
    var events := [a, b, c];
    ObjectMatcherIs(a, target, aspect);
    ObjectMatcherIs(b, target, aspect);
    ObjectMatcherIs(c, target, aspect);
    FilterAll(events, ObjectMatcher(target, aspect));
    RatingEventValue(0, "bender", 5, target, aspect, t);
    RatingEventValue(1, "fry", 2, target, aspect, t);
    RatingEventValue(2, "leela", 3, target, aspect, t);
    assert events[..2] == [a, b] && [a, b][..1] == [a] && [a][..0] == [];
    assert SumOfValues([a]) == 5;
    assert SumOfValues([a, b]) == 7;
    assert SumOfValues(events) == 10;
  }
}
