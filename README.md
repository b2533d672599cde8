# nuxeo-rating, modelled in Dafny

A model of the rating and like services of nuxeo-rating and of the two activity-stream
filters they query. Every rating is an activity in the activity stream: verb
`org.nuxeo.rating.<aspect>`, actor `user:<name>`, target the rated activity object, object
the rating in decimal, and no context for a primary rating.

- `Activities` (activities.dfy): the activity record and the activity-object formats.
- `Ledger` (ledger.dfy): the stored activity stream. It is a class whose `events` the
  services append to (addActivity) and delete from (removeActivities, bulk delete). Ids
  stay unique.
- `RatingFilter` (rating_filter.dfy): the rating activity-stream filter.
  - Which activities it claims.
  - Its five JPQL queries, each a predicate over the store, with offset/limit paging and
    the latest-rated ordering.
  - The handlers that delete the ratings of removed activities and replies. The deletions
    are loops over the removed activities.
- `RatingService` (rating_service.dfy): rate, cancelRate, hasUserRated, the four
  getRatesCount forms and the two averages. computeAverage is a loop.
- `LikesCountFilter` (likes_count_filter.dfy): the likes-count filter's two grouped count
  queries.
  - GROUP BY target, ordered by count descending, and paged.
  - Their conversion to result activities, which is a loop.
- `LikeStatusModel` (like_status.dfy): the LikeStatus record and its map form.
- `LikeService` (like_service.dfy): like, dislike, cancel, the counts, the user statuses
  and getMostLikedDocuments, all built on the rating service.
- `Decimal` (decimal.dfy): String.valueOf on ints and Integer.valueOf, with the int32
  range.
- `Seqs` (seqs.dfy): selection, deletion, paging and descending sort on sequences.
- `Wrappers` (wrappers.dfy): Option and Result.

The service operations are methods that read or change the `Ledger`. The specification
functions over a snapshot of the store (`seq<Event>`) say what those methods compute. The
lemmas then relate the operations to each other: rate against the counts, cancelRate
against rate, like against dislike and cancel, and the handlers against later queries.

Source paths below are relative to the repository root.

## Model

| member | source | states |
|---|---|---|
| Decimal.Digits | nuxeo-rating-core/src/main/java/org/nuxeo/ecm/rating/RatingServiceImpl.java:61 | the decimal digits of a non-negative number: never empty, every character an ASCII digit |
| Decimal.ParseInt | nuxeo-rating-core/src/main/java/org/nuxeo/ecm/rating/RatingServiceImpl.java:190 | Integer.valueOf: a value is produced exactly when the text is a numeral (an optional `-` or `+` followed by at least one digit, digits only after it) whose value lies in the int range, and the value is that numeral's value |
| Decimal.ParseIntRangeEdges | nuxeo-rating-core/src/main/java/org/nuxeo/ecm/rating/RatingServiceImpl.java:190 | the int range edges: 2147483647 and -2147483648 parse, 2147483648 and -2147483649 overflow |
| Decimal.ParseIntSyntax | nuxeo-rating-core/src/main/java/org/nuxeo/ecm/rating/RatingServiceImpl.java:190 | a `+` sign is accepted; the empty text, a lone sign, a trailing letter, a doubled sign and a leading space are rejected |
| Decimal.DigitsValueOfDigits | nuxeo-rating-core/src/main/java/org/nuxeo/ecm/rating/RatingServiceImpl.java:61 | reading back the digits String.valueOf writes for a non-negative number gives the number |
| Decimal.ParseDecimalRoundTrip | nuxeo-rating-core/src/main/java/org/nuxeo/ecm/rating/RatingServiceImpl.java:61 | Integer.valueOf(String.valueOf(n)) == n for every int n, so a rating written by rate reads back as its value |
| Decimal.DecimalStringInjective | nuxeo-rating-core/src/main/java/org/nuxeo/ecm/rating/RatingActivityStreamFilter.java:157 | two ints have the same decimal text iff they are equal, so the `object = :rating` clause selects exactly one rating value |
| Seqs.Filter | nuxeo-rating-core/src/main/java/org/nuxeo/ecm/rating/RatingActivityStreamFilter.java:226 | a query result holds exactly the stored activities its predicate accepts (membership both ways) and is no longer than the store; its order is stated by FilterAppend |
| Seqs.FilterAppend | nuxeo-rating-core/src/main/java/org/nuxeo/ecm/rating/RatingActivityStreamFilter.java:226 | selecting from two stores appended is appending the two selections |
| Seqs.FilterSnocCount | nuxeo-rating-core/src/main/java/org/nuxeo/ecm/rating/RatingServiceImpl.java:63 | appending one activity adds one to a selection's size exactly when the predicate accepts it |
| Seqs.FilterFilter | nuxeo-rating-core/src/main/java/org/nuxeo/ecm/rating/LikesCountActivityStreamFilter.java:118 | selecting twice is selecting with both predicates |
| Seqs.FilterAgree | nuxeo-rating-core/src/main/java/org/nuxeo/ecm/rating/RatingActivityStreamFilter.java:226 | predicates that agree on every stored activity select the same list |
| Seqs.FilterAll | nuxeo-rating-core/src/main/java/org/nuxeo/ecm/rating/RatingActivityStreamFilter.java:226 | a predicate accepting every activity selects the whole list |
| Seqs.FilterNone | nuxeo-rating-core/src/main/java/org/nuxeo/ecm/rating/RatingActivityStreamFilter.java:134-136 | a predicate accepting nothing selects the empty list |
| Seqs.FilterMonotone | nuxeo-rating-core/src/main/java/org/nuxeo/ecm/rating/RatingActivityStreamFilter.java:149-151 | a stronger where-clause selects no more activities |
| Seqs.FilterDisjointWithin | nuxeo-rating-core/src/main/java/org/nuxeo/ecm/rating/LikeServiceImpl.java:147-149 | two selections with no common element, both inside a third selection, are together no larger than it |
| Seqs.FilterIdempotent | nuxeo-rating-core/src/main/java/org/nuxeo/ecm/rating/RatingActivityStreamFilter.java:226 | selecting again with the same predicate changes nothing |
| Seqs.RejectLeavesNoMatch | nuxeo-rating-core/src/main/java/org/nuxeo/ecm/rating/RatingServiceImpl.java:78 | after deleting what a predicate matches, nothing it matches is left |
| Seqs.RejectIdempotent | nuxeo-rating-core/src/main/java/org/nuxeo/ecm/rating/RatingServiceImpl.java:78 | deleting by the same predicate twice deletes nothing the second time |
| Seqs.FilterRejectDisjoint | nuxeo-rating-core/src/main/java/org/nuxeo/ecm/rating/RatingServiceImpl.java:78 | deleting what `p` matches leaves every selection disjoint from `p` unchanged |
| Seqs.RejectCount | nuxeo-rating-core/src/main/java/org/nuxeo/ecm/rating/RatingServiceImpl.java:78 | deleting what `p` matches shrinks `q`'s selection by exactly the activities both accept |
| Seqs.Skip | nuxeo-rating-core/src/main/java/org/nuxeo/ecm/rating/RatingActivityStreamFilter.java:223-225 | setFirstResult: a non-positive offset skips nothing; a positive one skips that many, at most the whole list, and an offset past the end skips all of it |
| Seqs.IntCast | nuxeo-rating-core/src/main/java/org/nuxeo/ecm/rating/RatingActivityStreamFilter.java:220-225 | the `(int)` cast of a long: an int congruent to it modulo 2^32, equal to it when it already fits, and never larger than a positive value it maps to a non-negative one |
| Seqs.PageBounds | nuxeo-rating-core/src/main/java/org/nuxeo/ecm/rating/RatingActivityStreamFilter.java:220-225 | the ints setFirstResult/setMaxResults receive: refused (None) exactly when a positive offset or limit casts to a negative int; otherwise non-negative, 0 for an unset bound, the value itself when it fits, and never more than the long it came from |
| Seqs.PageBoundsWrap | nuxeo-rating-core/src/main/java/org/nuxeo/ecm/rating/RatingActivityStreamFilter.java:220-225 | 2^32+5 casts to 5, 2^31 casts to a negative offset and is refused, 2^32 casts to 0 |
| Seqs.Page | nuxeo-rating-core/src/main/java/org/nuxeo/ecm/rating/RatingActivityStreamFilter.java:220-225 | offset/limit paging: at most `limit` results when limit > 0, the whole list when neither is set, exact length, and each result is the element `offset` places further on |
| Seqs.PagePastEnd | nuxeo-rating-core/src/main/java/org/nuxeo/ecm/rating/RatingActivityStreamFilter.java:223-225 | a first result at or past the end gives an empty page |
| Seqs.PageWithin | nuxeo-rating-core/src/main/java/org/nuxeo/ecm/rating/RatingActivityStreamFilter.java:220-225 | every element of a page is in the paged list |
| Seqs.PageWithinAll | nuxeo-rating-core/src/main/java/org/nuxeo/ecm/rating/RatingActivityStreamFilter.java:220-225 | every element of a page is in the paged list, for all elements at once |
| Seqs.PageKeepsSorted | nuxeo-rating-core/src/main/java/org/nuxeo/ecm/rating/RatingActivityStreamFilter.java:220-225 | a page of an ordered result is ordered |
| Seqs.DistinctOccursOnce | nuxeo-rating-core/src/main/java/org/nuxeo/ecm/rating/LikesCountActivityStreamFilter.java:128 | a list without repeats holds each element at most once (as a multiset) |
| Seqs.RepeatOccursTwice | nuxeo-rating-core/src/main/java/org/nuxeo/ecm/rating/LikesCountActivityStreamFilter.java:128 | an element at two positions occurs at least twice |
| Seqs.PermutationKeepsDistinct | nuxeo-rating-core/src/main/java/org/nuxeo/ecm/rating/LikesCountActivityStreamFilter.java:128 | reordering a list without repeats leaves it without repeats |
| Seqs.Insert | nuxeo-rating-core/src/main/java/org/nuxeo/ecm/rating/RatingActivityStreamFilter.java:212 | inserting into an ordered list keeps it ordered and adds exactly that element |
| Seqs.SortDesc | nuxeo-rating-core/src/main/java/org/nuxeo/ecm/rating/RatingActivityStreamFilter.java:212 | ORDER BY ... DESC: the result is sorted descending by the key and is a permutation of the input |
| Seqs.FilterKeepsSorted | nuxeo-rating-core/src/main/java/org/nuxeo/ecm/rating/LikeServiceImpl.java:189 | removing activities from an ordered list keeps it ordered |
| Seqs.PrefixKeepsSorted | nuxeo-rating-core/src/main/java/org/nuxeo/ecm/rating/LikeServiceImpl.java:190-191 | a prefix of an ordered list is ordered |
| Activities.PrefixedInjective | nuxeo-rating-core/src/main/java/org/nuxeo/ecm/rating/RatingActivityStreamFilter.java:153 | two rating verbs are equal iff their aspects are equal |
| Activities.UserActivityObjectInjective | nuxeo-rating-core/src/main/java/org/nuxeo/ecm/rating/RatingServiceImpl.java:60 | two users' activity objects are equal iff the user names are equal |
| Ledger.RemoveSelectedIds | nuxeo-rating-core/src/main/java/org/nuxeo/ecm/rating/RatingServiceImpl.java:76-78 | with unique ids, removing the ids of the activities a query selected removes exactly those activities |
| Ledger.Ledger.constructor | nuxeo-rating-core/src/main/java/org/nuxeo/ecm/rating/RatingServiceImpl.java:62-63 | an empty store whose first id is 0 |
| Ledger.Ledger.AddActivity | nuxeo-rating-core/src/main/java/org/nuxeo/ecm/rating/RatingServiceImpl.java:62-63 | addActivity appends exactly the given activity with a fresh id; ids stay unique and below the counter |
| Ledger.Ledger.RemoveActivities | nuxeo-rating-core/src/main/java/org/nuxeo/ecm/rating/RatingServiceImpl.java:78 | removeActivities deletes exactly the activities whose id is listed and keeps the others in order |
| Ledger.Ledger.DeleteWhere | nuxeo-rating-core/src/main/java/org/nuxeo/ecm/rating/RatingActivityStreamFilter.java:121-125 | a bulk delete removes exactly the activities matched and keeps the rest in order |
| RatingFilter.IsInterestedIn | nuxeo-rating-core/src/main/java/org/nuxeo/ecm/rating/RatingActivityStreamFilter.java:75-79 | the filter claims nothing without a verb, and nothing whose verb is shorter than the rating prefix |
| RatingFilter.RatingVerbsAreClaimed | nuxeo-rating-core/src/main/java/org/nuxeo/ecm/rating/RatingActivityStreamFilter.java:75-79 | every verb `prefix + aspect` is claimed, so every rating is routed to this filter |
| RatingFilter.Query | nuxeo-rating-core/src/main/java/org/nuxeo/ecm/rating/RatingActivityStreamFilter.java:128-227 | no query type gives []; an error (NegativePageBound) exactly when a query type is set and the offset or limit casts to a negative int; otherwise the result is the paged window of the ordered matches at the cast bounds (exact length, and result i is the match that many places past the cast offset); every result is a stored activity matching the query type's where-clause; at most the cast limit (itself at most `limit`) results; unpaged results are a permutation of the matches, equal to them in store order for every type but the latest-rated one, which is sorted by (publishedDate, id) descending |
| RatingFilter.QueryWithinMatches | nuxeo-rating-core/src/main/java/org/nuxeo/ecm/rating/RatingActivityStreamFilter.java:220-226 | a page of the ordered matches contains only matches |
| RatingFilter.ActorQueryWithinObjectQuery | nuxeo-rating-core/src/main/java/org/nuxeo/ecm/rating/RatingActivityStreamFilter.java:146-172 | the actor query selects a sub-list of the object query: every activity it selects, the object query selects too, so it is never larger |
| RatingFilter.RatingClauseNarrows | nuxeo-rating-core/src/main/java/org/nuxeo/ecm/rating/RatingActivityStreamFilter.java:149-151 | adding `object = :rating` to either query never selects more |
| RatingFilter.ReplyObjects | nuxeo-rating-core/src/main/java/org/nuxeo/ecm/rating/RatingActivityStreamFilter.java:102-104 | one activity object per reply, in reply order |
| RatingFilter.RemovedTargetsCover | nuxeo-rating-core/src/main/java/org/nuxeo/ecm/rating/RatingActivityStreamFilter.java:99-105 | every removed activity's object and every one of its replies' objects is among the targets collected |
| RatingFilter.RemovedTargetsStep | nuxeo-rating-core/src/main/java/org/nuxeo/ecm/rating/RatingActivityStreamFilter.java:100-105 | the collected targets grow by one activity's targets per outer iteration |
| RatingFilter.ReplyObjectsStep | nuxeo-rating-core/src/main/java/org/nuxeo/ecm/rating/RatingActivityStreamFilter.java:102-104 | the reply objects grow by one per inner iteration |
| RatingFilter.RemoveAllRatingActivitiesFor | nuxeo-rating-core/src/main/java/org/nuxeo/ecm/rating/RatingActivityStreamFilter.java:118-126 | deletes exactly the rating-prefixed activities whose target is one of the given objects |
| RatingFilter.CollectRemovedTargets | nuxeo-rating-core/src/main/java/org/nuxeo/ecm/rating/RatingActivityStreamFilter.java:99-105 | the handler's loop collects exactly the targets of every removed activity and its replies, in order |
| RatingFilter.AddReplyTargets | nuxeo-rating-core/src/main/java/org/nuxeo/ecm/rating/RatingActivityStreamFilter.java:102-104 | the inner loop appends one object per reply, in order |
| RatingFilter.HandleRemovedActivities | nuxeo-rating-core/src/main/java/org/nuxeo/ecm/rating/RatingActivityStreamFilter.java:95-107 | deletes exactly the ratings whose target is a removed activity or one of its replies |
| RatingFilter.HandleRemovedActivityReply | nuxeo-rating-core/src/main/java/org/nuxeo/ecm/rating/RatingActivityStreamFilter.java:109-116 | deletes exactly the ratings whose target is the removed reply |
| RatingFilter.RemovedActivitiesLoseTheirRatings | nuxeo-rating-core/src/main/java/org/nuxeo/ecm/rating/RatingActivityStreamFilter.java:95-126 | afterwards no rating of a removed activity or reply remains, and every activity that is not such a rating is kept |
| RatingFilter.RemovedReplyKeepsOthers | nuxeo-rating-core/src/main/java/org/nuxeo/ecm/rating/RatingActivityStreamFilter.java:109-126 | removing a reply leaves no rating on it and keeps every activity with another target and every non-rating activity |
| RatingService.Rate | nuxeo-rating-core/src/main/java/org/nuxeo/ecm/rating/RatingServiceImpl.java:55-64 | rate appends exactly one activity (verb prefix+aspect, the user's actor object, the target, the decimal rating, no context) and changes nothing else |
| RatingService.CancelRate | nuxeo-rating-core/src/main/java/org/nuxeo/ecm/rating/RatingServiceImpl.java:66-79 | cancelRate deletes exactly the activities the actor query selects (the user's context-free ratings of that target and aspect) and keeps the rest in order |
| RatingService.ActorMatcherIs | nuxeo-rating-core/src/main/java/org/nuxeo/ecm/rating/RatingActivityStreamFilter.java:146-159 | the actor query accepts an activity iff it is that user's context-free rating of the target under the aspect |
| RatingService.ObjectMatcherIs | nuxeo-rating-core/src/main/java/org/nuxeo/ecm/rating/RatingActivityStreamFilter.java:160-172 | the object query accepts an activity iff it is a context-free rating of the target under the aspect |
| RatingService.ValueMatcherIs | nuxeo-rating-core/src/main/java/org/nuxeo/ecm/rating/RatingActivityStreamFilter.java:160-172 | with a rating, the object query also demands the object be that rating's decimal text |
| RatingService.ObjectQueryContents | nuxeo-rating-core/src/main/java/org/nuxeo/ecm/rating/RatingActivityStreamFilter.java:160-172 | the object query's result holds exactly the stored primary ratings of the target |
| RatingService.ActorQueryContents | nuxeo-rating-core/src/main/java/org/nuxeo/ecm/rating/RatingActivityStreamFilter.java:146-159 | the actor query's result holds exactly the user's stored primary ratings of the target |
| RatingService.ObjectQueryNonEmpty | nuxeo-rating-core/src/main/java/org/nuxeo/ecm/rating/RatingActivityStreamFilter.java:160-172 | the object query returns something iff a primary rating of the target is stored |
| RatingService.ActorQueryNonEmpty | nuxeo-rating-core/src/main/java/org/nuxeo/ecm/rating/RatingActivityStreamFilter.java:146-159 | the actor query returns something iff the user has a primary rating of the target |
| RatingService.RatesCount | nuxeo-rating-core/src/main/java/org/nuxeo/ecm/rating/RatingServiceImpl.java:97-108 | getRatesCount is positive iff some primary rating of the target under the aspect is stored |
| RatingService.RatesCountWithValue | nuxeo-rating-core/src/main/java/org/nuxeo/ecm/rating/RatingServiceImpl.java:110-122 | getRatesCount(target, rating, aspect) is at most getRatesCount(target, aspect) |
| RatingService.RatesCountForUser | nuxeo-rating-core/src/main/java/org/nuxeo/ecm/rating/RatingServiceImpl.java:124-138 | getRatesCountForUser(u, target, aspect) is at most getRatesCount(target, aspect) |
| RatingService.RatesCountForUserWithValue | nuxeo-rating-core/src/main/java/org/nuxeo/ecm/rating/RatingServiceImpl.java:140-155 | getRatesCountForUser(u, target, rating, aspect) is at most both the user's count and the count of that value |
| RatingService.HasUserRated | nuxeo-rating-core/src/main/java/org/nuxeo/ecm/rating/RatingServiceImpl.java:81-95 | hasUserRated iff getRatesCountForUser > 0 (same actor query), iff the user has a primary rating of the target |
| RatingService.RatesCountIsSelectionSize | nuxeo-rating-core/src/main/java/org/nuxeo/ecm/rating/RatingServiceImpl.java:97-108 | getRatesCount is the size of the object query's selection |
| RatingService.RatesCountForUserIsSelectionSize | nuxeo-rating-core/src/main/java/org/nuxeo/ecm/rating/RatingServiceImpl.java:124-138 | getRatesCountForUser is the size of the actor query's selection |
| RatingService.RatesCountWithValueIsSelectionSize | nuxeo-rating-core/src/main/java/org/nuxeo/ecm/rating/RatingServiceImpl.java:110-122 | getRatesCount with a value is the size of the object query's selection with that value |
| RatingService.AverageOf | nuxeo-rating-core/src/main/java/org/nuxeo/ecm/rating/RatingServiceImpl.java:186-196 | the average is undefined (0/0) exactly for no rating; otherwise its denominator is the number of ratings |
| RatingService.ComputeAverage | nuxeo-rating-core/src/main/java/org/nuxeo/ecm/rating/RatingServiceImpl.java:186-196 | the loop sums the values that parse as an int, skipping the others, and divides by the number of ratings |
| RatingService.GetAverageRating | nuxeo-rating-core/src/main/java/org/nuxeo/ecm/rating/RatingServiceImpl.java:157-168 | getAverageRating is the average of the object query's selection |
| RatingService.GetAverageRatingForUser | nuxeo-rating-core/src/main/java/org/nuxeo/ecm/rating/RatingServiceImpl.java:170-184 | getAverageRatingForUser is the average of the actor query's selection |
| RatingService.UnparseableCountsInDenominator | nuxeo-rating-core/src/main/java/org/nuxeo/ecm/rating/RatingServiceImpl.java:189-195 | a value that does not parse adds 0 to the sum but 1 to the count |
| RatingService.ParsedValueAddsToSum | nuxeo-rating-core/src/main/java/org/nuxeo/ecm/rating/RatingServiceImpl.java:189-195 | a parsed value adds itself to the sum and 1 to the count |
| RatingService.RatingEventValue | nuxeo-rating-core/src/main/java/org/nuxeo/ecm/rating/RatingServiceImpl.java:61 | a rating written by rate contributes exactly its value to the average |
| RatingService.RateAddsToUserCount | nuxeo-rating-core/src/main/java/org/nuxeo/ecm/rating/RatingServiceImpl.java:55-64 | rating again adds one to the user's count: repeated rates accumulate rather than replace |
| RatingService.RateAddsToCount | nuxeo-rating-core/src/main/java/org/nuxeo/ecm/rating/RatingServiceImpl.java:55-64 | rating adds one to the target's count under that aspect |
| RatingService.RateAddsToValueCount | nuxeo-rating-core/src/main/java/org/nuxeo/ecm/rating/RatingServiceImpl.java:55-64 | rating adds one to the count of that value |
| RatingService.RateKeepsOtherValues | nuxeo-rating-core/src/main/java/org/nuxeo/ecm/rating/RatingServiceImpl.java:55-64 | rating with one value leaves the count of every other value unchanged |
| RatingService.RateKeepsOtherAspects | nuxeo-rating-core/src/main/java/org/nuxeo/ecm/rating/RatingServiceImpl.java:55-64 | rating under one aspect leaves every other aspect's count unchanged |
| RatingService.RateMeansRated | nuxeo-rating-core/src/main/java/org/nuxeo/ecm/rating/RatingServiceImpl.java:55-64 | after rating, hasUserRated holds |
| RatingService.CancelRateEffect | nuxeo-rating-core/src/main/java/org/nuxeo/ecm/rating/RatingServiceImpl.java:66-79 | after cancelRate the user has not rated; the target's count drops by exactly the user's count; every other (user, target, aspect) actor selection is unchanged |
| RatingService.CancelRateKeepsOtherAspects | nuxeo-rating-core/src/main/java/org/nuxeo/ecm/rating/RatingServiceImpl.java:66-79 | cancelRate under another aspect leaves this aspect's count unchanged |
| RatingService.CancelRateIdempotent | nuxeo-rating-core/src/main/java/org/nuxeo/ecm/rating/RatingServiceImpl.java:66-79 | a second cancelRate removes nothing |
| RatingService.ValueCountsEmpty | nuxeo-rating-core/src/main/java/org/nuxeo/ecm/rating/RatingServiceImpl.java:110-122 | over an empty store every value's count is 0 |
| RatingService.ValueCountsSnoc | nuxeo-rating-core/src/main/java/org/nuxeo/ecm/rating/RatingServiceImpl.java:110-122 | appending an activity adds, to the sum of per-value counts, the number of listed values it is a rating of |
| RatingService.HitsNone | nuxeo-rating-core/src/main/java/org/nuxeo/ecm/rating/RatingServiceImpl.java:110-122 | an activity that is not a primary rating of one of the values is counted under none |
| RatingService.HitsOne | nuxeo-rating-core/src/main/java/org/nuxeo/ecm/rating/RatingServiceImpl.java:110-122 | with distinct values, a primary rating with one of their texts is counted under exactly one |
| RatingService.RatesCountIsSumOverValues | nuxeo-rating-core/src/main/java/org/nuxeo/ecm/rating/RatingServiceImpl.java:97-122 | when every primary rating carries one of a list of distinct values, getRatesCount(T, A) is the sum over the values v of getRatesCount(T, v, A) |
| RatingService.RatesCountSumStep | nuxeo-rating-core/src/main/java/org/nuxeo/ecm/rating/RatingServiceImpl.java:97-122 | the sum-over-values equality survives appending one activity |
| RatingService.AverageOfFiveTwoThree | nuxeo-rating-core/src/main/java/org/nuxeo/ecm/rating/RatingServiceImpl.java:186-196 | ratings 5, 2 and 3 average to exactly 10/3 |
| LikesCountFilter.IsInterestedIn | nuxeo-rating-core/src/main/java/org/nuxeo/ecm/rating/LikesCountActivityStreamFilter.java:80-83 | the filter claims no activity |
| LikesCountFilter.Targets | nuxeo-rating-core/src/main/java/org/nuxeo/ecm/rating/LikesCountActivityStreamFilter.java:128 | GROUP BY target: the distinct targets of the selected likes, each once, and no others |
| LikesCountFilter.PagedRowsBound | nuxeo-rating-core/src/main/java/org/nuxeo/ecm/rating/LikesCountActivityStreamFilter.java:102-105 | no query type gives no rows; a positive max-results value bounds the rows |
| LikesCountFilter.BuildEntries | nuxeo-rating-core/src/main/java/org/nuxeo/ecm/rating/LikesCountActivityStreamFilter.java:177-186 | the result loop builds one activity per row, in row order |
| LikesCountFilter.Query | nuxeo-rating-core/src/main/java/org/nuxeo/ecm/rating/LikesCountActivityStreamFilter.java:100-189 | no query type gives []; an error (NegativePageBound) exactly when a query type is set and the offset or limit casts to a negative int; at most the cast limit results; result i is row i of the page at the cast bounds, built as an activity (verb prefix+like, the actor parameter, the count as object, the target, the actor's count as context) |
| LikesCountFilter.GroupedRows | nuxeo-rating-core/src/main/java/org/nuxeo/ecm/rating/LikesCountActivityStreamFilter.java:114-155 | before ordering: one row per selected target, no row twice, each row carrying its own group's counts |
| LikesCountFilter.RowsAreTheGroups | nuxeo-rating-core/src/main/java/org/nuxeo/ecm/rating/LikesCountActivityStreamFilter.java:114-155 | the ordered rows are sorted by count descending, have distinct targets, carry each group's counts and cover exactly the selected targets |
| LikesCountFilter.PagedRowsAreGroups | nuxeo-rating-core/src/main/java/org/nuxeo/ecm/rating/LikesCountActivityStreamFilter.java:170-175 | a page of the rows keeps the order, the distinct targets and the group counts, and only names selected targets |
| LikesCountFilter.PageKeepsDistinctTargets | nuxeo-rating-core/src/main/java/org/nuxeo/ecm/rating/LikesCountActivityStreamFilter.java:170-175 | a page of rows with distinct targets has distinct targets |
| LikesCountFilter.UnpagedRowsCoverSelection | nuxeo-rating-core/src/main/java/org/nuxeo/ecm/rating/LikesCountActivityStreamFilter.java:114-155 | without paging, the rows name exactly the targets of the selected likes |
| LikesCountFilter.DocumentCountIsGroupSize | nuxeo-rating-core/src/main/java/org/nuxeo/ecm/rating/LikesCountActivityStreamFilter.java:114-128 | a document's count is the number of like activities on it with the context, object and window asked for |
| LikeStatusModel.ForObject | nuxeo-rating-api/src/main/java/org/nuxeo/ecm/rating/api/LikeStatus.java:88-90 | the three-argument constructor: the counts and object as given, no user and status UNKNOWN |
| LikeStatusModel.ToMap | nuxeo-rating-api/src/main/java/org/nuxeo/ecm/rating/api/LikeStatus.java:96-104 | toMap has exactly the five keys activityObject, likesCount, dislikesCount, username, userLikeStatus |
| LikeStatusModel.FromMap | nuxeo-rating-api/src/main/java/org/nuxeo/ecm/rating/api/LikeStatus.java:96-104 | reading a status back needs all five keys |
| LikeStatusModel.MapRoundTrip | nuxeo-rating-api/src/main/java/org/nuxeo/ecm/rating/api/LikeStatus.java:96-104 | toMap loses nothing: reading its map back gives the same status, username null included |
| LikeStatusModel.ToMapInjective | nuxeo-rating-api/src/main/java/org/nuxeo/ecm/rating/api/LikeStatus.java:96-104 | two statuses have the same map iff they are equal |
| LikeService.Like | nuxeo-rating-core/src/main/java/org/nuxeo/ecm/rating/LikeServiceImpl.java:57-62 | like is cancelRate then rate +1: the user's like-aspect ratings of the object are dropped, then one +1 rating appended |
| LikeService.Dislike | nuxeo-rating-core/src/main/java/org/nuxeo/ecm/rating/LikeServiceImpl.java:95-101 | dislike is cancelRate then rate -1 |
| LikeService.Cancel | nuxeo-rating-core/src/main/java/org/nuxeo/ecm/rating/LikeServiceImpl.java:134-138 | cancel drops exactly the user's like-aspect ratings of the object |
| LikeService.LikesCount | nuxeo-rating-core/src/main/java/org/nuxeo/ecm/rating/LikeServiceImpl.java:83-88 | getLikesCount is at most the number of like-aspect ratings of the object |
| LikeService.DislikesCount | nuxeo-rating-core/src/main/java/org/nuxeo/ecm/rating/LikeServiceImpl.java:122-127 | getDislikesCount is at most the number of like-aspect ratings of the object |
| LikeService.UserStatus | nuxeo-rating-core/src/main/java/org/nuxeo/ecm/rating/LikeServiceImpl.java:157-166 | the status is LIKED iff the user's average is above 0, DISLIKED iff below 0, else UNKNOWN; so never both, and UNKNOWN when the user has no like-aspect rating |
| LikeService.HasUserLiked | nuxeo-rating-core/src/main/java/org/nuxeo/ecm/rating/LikeServiceImpl.java:69-75 | hasUserLiked iff the user's like-aspect average is above 0 |
| LikeService.HasUserDisliked | nuxeo-rating-core/src/main/java/org/nuxeo/ecm/rating/LikeServiceImpl.java:108-114 | hasUserDisliked iff the user's like-aspect average is below 0 |
| LikeService.GetLikeStatus | nuxeo-rating-core/src/main/java/org/nuxeo/ecm/rating/LikeServiceImpl.java:145-150 | no user and status UNKNOWN; the likes and dislikes counts are getLikesCount and getDislikesCount, and together they are at most the like-aspect ratings of the object |
| LikeService.LikesAndDislikesWithinRatings | nuxeo-rating-core/src/main/java/org/nuxeo/ecm/rating/LikeServiceImpl.java:147-149 | no rating is both a like and a dislike, so likes plus dislikes is at most the like-aspect ratings |
| LikeService.GetUserLikeStatus | nuxeo-rating-core/src/main/java/org/nuxeo/ecm/rating/LikeServiceImpl.java:157-166 | the like and dislike counts, the user, and the user's LIKED/DISLIKED/UNKNOWN status |
| LikeService.RelikeLeavesOneRating | nuxeo-rating-core/src/main/java/org/nuxeo/ecm/rating/LikeServiceImpl.java:57-62 | after cancel-then-rate the user has exactly one like-aspect rating of the object, the new one, and their average is its value |
| LikeService.LikeAndDislikeSetStatus | nuxeo-rating-core/src/main/java/org/nuxeo/ecm/rating/LikeServiceImpl.java:57-62 | after like the user's status is LIKED; after dislike it is DISLIKED |
| LikeService.CancelClearsStatus | nuxeo-rating-core/src/main/java/org/nuxeo/ecm/rating/LikeServiceImpl.java:134-138 | after cancel the user's status is UNKNOWN |
| LikeService.CancelTakesUserValues | nuxeo-rating-core/src/main/java/org/nuxeo/ecm/rating/LikeServiceImpl.java:134-138 | dropping a user's like-aspect ratings lowers a value's count by exactly that user's ratings of the value |
| LikeService.RateAddsToItsValue | nuxeo-rating-core/src/main/java/org/nuxeo/ecm/rating/LikeServiceImpl.java:61 | the new rating adds one to its own value's count and nothing to another value's |
| LikeService.LikeCounts | nuxeo-rating-core/src/main/java/org/nuxeo/ecm/rating/LikeServiceImpl.java:57-62 | like: likes lose the user's earlier likes and gain one; dislikes lose the user's earlier dislikes |
| LikeService.DislikeCounts | nuxeo-rating-core/src/main/java/org/nuxeo/ecm/rating/LikeServiceImpl.java:95-101 | dislike: dislikes lose the user's earlier dislikes and gain one; likes lose the user's earlier likes |
| LikeService.RelikeUserValues | nuxeo-rating-core/src/main/java/org/nuxeo/ecm/rating/LikeServiceImpl.java:57-62 | after cancel-then-rate the user has one rating of the new value and none of any other |
| LikeService.LikeTwiceCountsOnce | nuxeo-rating-core/src/main/java/org/nuxeo/ecm/rating/LikeServiceImpl.java:57-62 | liking the same object twice leaves the likes count where the first like put it |
| LikeService.LikeThenDislike | nuxeo-rating-core/src/main/java/org/nuxeo/ecm/rating/LikeServiceImpl.java:57-101 | like then dislike by one user: that user's likes are gone, one dislike is added, and the status is DISLIKED |
| LikeService.LikeThenDislikeFromEmpty | nuxeo-rating-core/src/main/java/org/nuxeo/ecm/rating/LikeServiceImpl.java:57-101 | on an empty store, like then dislike leaves 0 likes and 1 dislike |
| LikeService.CancelEffect | nuxeo-rating-core/src/main/java/org/nuxeo/ecm/rating/LikeServiceImpl.java:134-138 | cancel: likes and dislikes lose exactly the user's, the status becomes UNKNOWN, every other user's, object's or aspect's ratings stay |
| LikeService.Truncate | nuxeo-rating-core/src/main/java/org/nuxeo/ecm/rating/LikeServiceImpl.java:190-193 | subList(0, limit) when longer: fails iff limit < 0; otherwise a prefix of length min(size, limit) |
| LikeService.Entries | nuxeo-rating-core/src/main/java/org/nuxeo/ecm/rating/LikesCountActivityStreamFilter.java:177-186 | one activity per row, in row order |
| LikeService.FilterEntries | nuxeo-rating-core/src/main/java/org/nuxeo/ecm/rating/LikeServiceImpl.java:189 | filtering the built activities is building activities from the filtered rows |
| LikeService.EntriesAppend | nuxeo-rating-core/src/main/java/org/nuxeo/ecm/rating/LikesCountActivityStreamFilter.java:177-186 | building activities distributes over appending rows |
| LikeService.GetMostLikedDocumentsAsWritten | nuxeo-rating-core/src/main/java/org/nuxeo/ecm/rating/LikeServiceImpl.java:175-194 | as written: the empty list for every limit >= 0, and a failure for a negative limit |
| LikeService.GetMostLikedDocuments | nuxeo-rating-core/src/main/java/org/nuxeo/ecm/rating/LikeServiceImpl.java:175-194 | with the query type set: fails iff limit < 0; otherwise the first min(limit, n) visible rows of the documents-count query, built as activities |
| LikeService.MostLikedRowsOrdered | nuxeo-rating-core/src/main/java/org/nuxeo/ecm/rating/LikeServiceImpl.java:175-194 | those rows come most liked first and each carries its document's like count in the source's context |
| LikeService.MostLikedDocumentsNotAlwaysEmpty | nuxeo-rating-core/src/main/java/org/nuxeo/ecm/rating/LikeServiceImpl.java:175-194 | one like of a document in the source's context gives a non-empty intended result, which the as-written version drops |

## Left out

- Persistence, the entity manager and JPQL parsing. Each query is a predicate over the stored activities, in store order.
- Result order of a JPQL query without ORDER BY is not defined by the source. The model uses store order; GROUP BY uses order of first appearance.
- Ties under `ORDER BY count DESC`: the model's order among equal counts is one possible order, not one the source promises.
- SQL LIKE wildcards other than a trailing `%` (the only form the source uses) are not modelled.
- Document permissions. `ActivitiesList.filterActivities(session)` is a visibility predicate passed as a parameter.
- The DocumentModel and CoreSession overloads. Each only turns a document into `doc:<id>` or a principal into `user:<name>` and calls the string form.
- Double arithmetic. An average is a quotient `sum / count`, or `Undefined` for 0/0 (NaN in the source, which compares false with 0, as `UserStatus` reflects).
- Logging of unparsable rating values, and the unknown-query-type log line.
- Concurrency and transactions. Each operation runs alone on the store.
- ActivityHelper and the Constants class are not part of this model. Their formats are taken as `user:`, `doc:`, `activity:`, and one rating verb prefix `org.nuxeo.rating.` serving as both RATING_VERB_PREFIX and RATING_VERB_SUFFIX.
- RatingService.cancelRates, getRatedChildren, getLastestRatedDocByUser and LikeService.getMostLikedActivities have no implementation in the core files. The queries they would use are modelled in `RatingFilter.Query`.
- The deprecated `handleRemovedActivities(ids)`, and the likes-count filter's `handleNewActivity` and removal handlers, do nothing in the source. The rating filter's `handleNewActivity` does nothing either.
- Ratings with a context (rated children of a super-space) are written by a listener that is not part of this model. cancelRate removes only context-free ratings, as the code does.
- The operations, listener, web and gadget code that call these services.
- RatingFilter.IsInterestedIn: states only that a missing verb or a verb shorter than the prefix is not claimed, plus (RatingVerbsAreClaimed) that every rating verb is. The full prefix test is in its body.
- Decimal.ParseInt: reads ASCII digits only. Integer.valueOf also accepts other Unicode decimal digits (through Character.digit); rate only ever stores the decimal text of an int, which is ASCII.
- Seqs.PageBounds: a positive limit whose cast is 0 (a multiple of 2^32) reaches setMaxResults(0); the model reads 0 as "no limit", as for an unset limit. How the persistence provider reads a maximum of 0 is not part of this model.
- LikeService.LikesCount: its own contract is only the bound by all like-aspect ratings. What it counts is stated by LikeCounts, DislikeCounts, CancelEffect and LikeTwiceCountsOnce.
- LikeService.DislikesCount: likewise bounded only; the counting lemmas above state its changes.

## Findings

| source | as written | input that shows it | evidently intended | confidence | as-written member | corrected member |
|---|---|---|---|---|---|---|
| nuxeo-rating-core/src/main/java/org/nuxeo/ecm/rating/LikeServiceImpl.java:175-194 | getMostLikedDocuments never puts the query type, so the likes-count query returns the empty list (LikesCountActivityStreamFilter.java:102-105). The method always returns an empty list, or throws from subList when limit < 0 | one like of `doc:x` by `user:bob` with context `doc:src`, object `1`, a source whose activity object is `doc:src`, everything visible, limit 1 | the GET_DOCUMENTS_COUNT query, giving the `limit` most liked visible documents | not executed | LikeService.GetMostLikedDocumentsAsWritten, LikeService.MostLikedDocumentsNotAlwaysEmpty | LikeService.GetMostLikedDocuments, LikeService.MostLikedRowsOrdered |
