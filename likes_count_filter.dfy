/**
 * The likes-count filter: groups like activities by target, counts each group, orders
 * the groups by count descending, and pairs each with the number of the calling
 * actor's own activities on that target. Two query types: likes of documents in a
 * context, and likes of mini-messages posted in a context.
 */
module LikesCountFilter {
  import opened Wrappers
  import opened Decimal
  import opened Seqs
  import opened Activities
  import RatingFilter

  datatype CountQueryType = GetDocumentsCount | GetMiniMessageCount

  /**
   * The `fromDt`/`toDt` pair, present when the caller put `fromDt`. Either value may be
   * null; a BETWEEN against a null bound matches nothing.
   */
  datatype Window = Window(fromDt: Option<int>, toDt: Option<int>)

  /** The query parameters; None stands for a parameter that is absent or null. */
  datatype CountParams = CountParams(
    queryType: Option<CountQueryType>,
    context: Option<string>,
    obj: Option<Int32>,
    actor: Option<string>,
    window: Option<Window>)

  /** One activity of the answer, as built from a result row. */
  datatype CountActivity = CountActivity(verb: string, actor: Option<string>, obj: string,
                                         target: string, context: string)

  /** One result row: the group's target, its size, and the actor's count on it. */
  datatype CountRow = CountRow(target: string, count: nat, actorCount: nat)

  const LikeVerb: string := RatingVerbPrefix + LikeAspect

  /**
   * The source's isInterestedIn returns false for every activity, so this constant is
   * the whole promise: the store never routes an activity to this filter.
   */
  function IsInterestedIn(e: Event): (b: bool)
    ensures !b
  {
    false
  }

  /** String.valueOf of the `object` parameter: "null" when it is absent. */
  function ObjectText(o: Option<Int32>): string
  {
    match o
    case None => "null"
    case Some(n) => DecimalString(n)
  }

  /** `publishedDate BETWEEN :fromDt AND :toDt`, inclusive, when a window is given. */
  predicate InWindow(published: int, w: Option<Window>)
  {
    match w
    case None => true
    case Some(Window(fromDt, toDt)) =>
      fromDt.Some? && toDt.Some? && fromDt.value <= published <= toDt.value
  }

  /** A like of a document in the context with the requested value, in the window. */
  predicate IsDocumentLike(p: CountParams, e: Event)
  {
    e.verb == LikeVerb && e.context.Some? && RatingFilter.SqlEquals(e.context.value, p.context)
    && e.obj == ObjectText(p.obj) && InWindow(e.published, p.window)
  }

  /** A mini-message posted in the context whose activity object is `target`. */
  predicate IsMiniMessageOn(p: CountParams, target: string, m: Event)
  {
    m.verb == MiniMessageVerb && m.context.Some? && RatingFilter.SqlEquals(m.context.value, p.context)
    && ActivityObject(m.id) == target
  }

  function MiniMessageOn(p: CountParams, target: string): Event -> bool
  {
    (m: Event) => IsMiniMessageOn(p, target, m)
  }

  /** A like, in the window, of some mini-message posted in the context. */
  predicate IsMessageLike(events: seq<Event>, p: CountParams, e: Event)
  {
    e.verb == LikeVerb && InWindow(e.published, p.window)
    && exists m :: m in events && IsMiniMessageOn(p, e.target, m)
  }

  /** The outer query's WHERE clause for each query type. */
  function Selector(events: seq<Event>, p: CountParams): Event -> bool
    requires p.queryType.Some?
  {
    match p.queryType.value
    case GetDocumentsCount => (e: Event) => IsDocumentLike(p, e)
    case GetMiniMessageCount => (e: Event) => IsMessageLike(events, p, e)
  }

  /** The like activities the outer query groups. */
  function Selected(events: seq<Event>, p: CountParams): seq<Event>
    requires p.queryType.Some?
  {
    Filter(events, Selector(events, p))
  }

  /**
   * How many rows of the join each selected like stands for: one for documents, the
   * number of mini-messages it joins with for mini-messages.
   */
  function JoinWidth(events: seq<Event>, p: CountParams, target: string): nat
    requires p.queryType.Some?
  {
    match p.queryType.value
    case GetDocumentsCount => 1
    case GetMiniMessageCount => |Filter(events, MiniMessageOn(p, target))|
  }

  /**
   * The inner query: for documents the actor's likes on the target with the same
   * criteria; for mini-messages any activity of the actor on the target in the window.
   */
  function ActorSelector(p: CountParams, target: string): Event -> bool
    requires p.queryType.Some?
  {
    match p.queryType.value
    case GetDocumentsCount =>
      (e: Event) => IsDocumentLike(p, e) && RatingFilter.SqlEquals(e.actor, p.actor) && e.target == target
    case GetMiniMessageCount =>
      (e: Event) => RatingFilter.SqlEquals(e.actor, p.actor) && e.target == target
                    && InWindow(e.published, p.window)
  }

  function TargetIs(target: string): Event -> bool
  {
    (e: Event) => e.target == target
  }

  /** The row the query produces for the group of `target`. */
  function RowFor(events: seq<Event>, p: CountParams, target: string): CountRow
    requires p.queryType.Some?
  {
    CountRow(target, GroupSize(events, p, target) * JoinWidth(events, p, target),
             ActorCount(events, p, target))
  }

  /** How many selected likes have `target` as their target. */
  function GroupSize(events: seq<Event>, p: CountParams, target: string): nat
    requires p.queryType.Some?
  {
    |Filter(Selected(events, p), TargetIs(target))|
  }

  /** The inner query's count for the group of `target`. */
  function ActorCount(events: seq<Event>, p: CountParams, target: string): nat
    requires p.queryType.Some?
  {
    |Filter(events, ActorSelector(p, target))|
  }

  /** The targets of a list of activities, as a set. */
  function TargetSet(likes: seq<Event>): set<string>
  {
    set e | e in likes :: e.target
  }

  function RowTargets(rows: seq<CountRow>): set<string>
  {
    set r | r in rows :: r.target
  }

  /** The distinct targets of `likes`, in order of first appearance: the GROUP BY keys. */
  function Targets(likes: seq<Event>): (r: seq<string>)
    ensures Distinct(r)
    ensures forall t :: t in r <==> t in TargetSet(likes)
  {
    if likes == [] then []
    else
      SplitLast(likes);
      var init := Targets(likes[..|likes| - 1]);
      var t := likes[|likes| - 1].target;
      if t in init then init else init + [t]
  }

  function Grouped(events: seq<Event>, p: CountParams, targets: seq<string>): seq<CountRow>
    requires p.queryType.Some?
  {
    seq(|targets|, i requires 0 <= i < |targets| => RowFor(events, p, targets[i]))
  }

  function RowKey(r: CountRow): (int, int)
  {
    (r.count, 0)
  }

  /** The rows in `ORDER BY count DESC` order; rows of equal count come in no promised order. */
  function Rows(events: seq<Event>, p: CountParams): seq<CountRow>
    requires p.queryType.Some?
  {
    SortDesc(Grouped(events, p, Targets(Selected(events, p))), RowKey)
  }

  /**
   * The rows the query returns: none without a query type, else one page of them;
   * `first` and `max` are the int values setFirstResult and setMaxResults receive.
   */
  function PagedRows(events: seq<Event>, p: CountParams, first: int, max: int): seq<CountRow>
  {
    if p.queryType.None? then [] else Page(Rows(events, p), first, max)
  }

  /** The activity built from a row: the count as object, the actor's count as context. */
  function Entry(actor: Option<string>, row: CountRow): CountActivity
  {
    CountActivity(LikeVerb, actor, DecimalString(row.count), row.target, DecimalString(row.actorCount))
  }

  /** At most `limit` rows when a limit is set, and none without a query type. */
  lemma PagedRowsBound(events: seq<Event>, p: CountParams, first: int, max: int)
    ensures p.queryType.None? ==> PagedRows(events, p, first, max) == []
    ensures max > 0 ==> |PagedRows(events, p, first, max)| <= max
  {
  }

  /** The result loop: one activity per row, in row order. */
  method BuildEntries(actor: Option<string>, rows: seq<CountRow>) returns (likesCount: seq<CountActivity>)
    ensures |likesCount| == |rows|
    ensures forall i :: 0 <= i < |rows| ==> likesCount[i] == Entry(actor, rows[i])
  {
    likesCount := [];
    var i := 0;
    while i < |rows|
      invariant 0 <= i <= |rows|
      invariant |likesCount| == i
      invariant forall k :: 0 <= k < i ==> likesCount[k] == Entry(actor, rows[k])
    {
      likesCount := likesCount + [Entry(actor, rows[i])];
      i := i + 1;
    }
  }

  /**
   * query: the activities built from the returned rows; the long offset and limit are
   * cast to int for JPA, which throws on a negative value.
   */
  method Query(events: seq<Event>, p: CountParams, offset: int, limit: int)
    returns (r: Result<seq<CountActivity>>)
    ensures p.queryType.None? ==> r == Ok([])
    ensures r.Err? <==> p.queryType.Some? && PageBounds(offset, limit).None?
    ensures r.Err? ==> r.error == NegativePageBound
    ensures r.Ok? && limit > 0 && IntCast(limit) > 0 ==> |r.value| <= IntCast(limit) <= limit
    ensures PageBounds(offset, limit).Some? ==>
              var (first, max) := PageBounds(offset, limit).value;
              var rows := PagedRows(events, p, first, max);
              r.Ok? && |r.value| == |rows|
              && forall i :: 0 <= i < |rows| ==> r.value[i] == Entry(p.actor, rows[i])
    ensures r.Ok? ==> forall a :: a in r.value ==> a.verb == LikeVerb && a.actor == p.actor
  {
    if p.queryType.None? {
      return Ok([]);
    }
    var bounds := PageBounds(offset, limit);
    if bounds.None? {
      return Err(NegativePageBound);
    }
    var (first, max) := bounds.value;
    var rows := PagedRows(events, p, first, max);
    PagedRowsBound(events, p, first, max);
    var likesCount := BuildEntries(p.actor, rows);
    r := Ok(likesCount);
  }

  /** Row targets are pairwise distinct. */
  predicate DistinctTargets(rows: seq<CountRow>)
  {
    forall i, j :: 0 <= i < j < |rows| ==> rows[i].target != rows[j].target
  }

  /** Before ordering: one row per selected target, each the row of its own group. */
  lemma GroupedRows(events: seq<Event>, p: CountParams)
    requires p.queryType.Some?
    ensures var g := Grouped(events, p, Targets(Selected(events, p)));
      && Distinct(g)
      && (forall r :: r in g ==> r == RowFor(events, p, r.target))
      && RowTargets(g) == TargetSet(Selected(events, p))
  {
    var ts := Targets(Selected(events, p));
    GroupedDistinct(events, p, ts);
    GroupedAreRows(events, p, ts);
    GroupedTargets(events, p, ts);
  }

  lemma GroupedDistinct(events: seq<Event>, p: CountParams, ts: seq<string>)
    requires p.queryType.Some? && Distinct(ts)
    ensures Distinct(Grouped(events, p, ts))
  {
    var g := Grouped(events, p, ts);
    forall i, j | 0 <= i < j < |g|
      ensures g[i] != g[j]
    {
      assert g[i].target == ts[i] && g[j].target == ts[j];
    }
  }

  lemma GroupedAreRows(events: seq<Event>, p: CountParams, ts: seq<string>)
    requires p.queryType.Some?
    ensures forall r :: r in Grouped(events, p, ts) ==> r == RowFor(events, p, r.target)
  {
  }

  lemma GroupedTargets(events: seq<Event>, p: CountParams, ts: seq<string>)
    requires p.queryType.Some?
    ensures forall t :: t in RowTargets(Grouped(events, p, ts)) <==> t in ts
  {
    var g := Grouped(events, p, ts);
    forall t | t in ts
      ensures t in RowTargets(g)
    {
      var k :| 0 <= k < |ts| && ts[k] == t;
      assert g[k] in g && g[k].target == t;
    }
  }

  /**
   * The ordered rows: sorted by count descending, a permutation of one row per group,
   * so exactly the selected targets, each once, each with its group's counts.
   */
  lemma RowsAreTheGroups(events: seq<Event>, p: CountParams)
    requires p.queryType.Some?
    ensures var rows := Rows(events, p);
      && SortedDesc(rows, RowKey)
      && DistinctTargets(rows)
      && (forall r :: r in rows ==> r == RowFor(events, p, r.target))
      && RowTargets(rows) == TargetSet(Selected(events, p))
  {
    var g := Grouped(events, p, Targets(Selected(events, p)));
    var rows := Rows(events, p);
    GroupedRows(events, p);
    PermutationKeepsDistinct(g, rows);
    forall r | r in rows
      ensures r in g
    {
      assert r in multiset(rows);
    }
    forall r | r in g
      ensures r in rows
    {
      assert r in multiset(g);
    }
    forall i, j | 0 <= i < j < |rows|
      ensures rows[i].target != rows[j].target
    {
      assert rows[i] in rows && rows[j] in rows;
    }
  }

  /** What the query returns: ordered, distinct targets, each row its group's counts. */
  lemma PagedRowsAreGroups(events: seq<Event>, p: CountParams, offset: int, limit: int)
    requires p.queryType.Some?
    ensures var rows := PagedRows(events, p, offset, limit);
      && SortedDesc(rows, RowKey)
      && DistinctTargets(rows)
      && (forall r :: r in rows ==> r == RowFor(events, p, r.target))
      && RowTargets(rows) <= TargetSet(Selected(events, p))
  {
    var all := Rows(events, p);
    RowsAreTheGroups(events, p);
    PageKeepsSorted(all, offset, limit, RowKey);
    PageWithinAll(all, offset, limit);
    PageKeepsDistinctTargets(all, offset, limit);
  }

  lemma PageKeepsDistinctTargets(rows: seq<CountRow>, offset: int, limit: int)
    requires DistinctTargets(rows)
    ensures DistinctTargets(Page(rows, offset, limit))
  {
    WindowKeepsDistinctTargets(rows, Page(rows, offset, limit), Skip(|rows|, offset));
  }

  lemma WindowKeepsDistinctTargets(rows: seq<CountRow>, r: seq<CountRow>, k: nat)
    requires DistinctTargets(rows) && IsWindow(rows, r, k)
    ensures DistinctTargets(r)
  {
    forall i, j | 0 <= i < j < |r|
      ensures r[i].target != r[j].target
    {
      assert r[i] == rows[k + i] && r[j] == rows[k + j];
    }
  }

  /** Without paging the rows carry exactly the selected targets. */
  lemma UnpagedRowsCoverSelection(events: seq<Event>, p: CountParams)
    requires p.queryType.Some?
    ensures RowTargets(PagedRows(events, p, 0, 0)) == TargetSet(Selected(events, p))
  {
    RowsAreTheGroups(events, p);
  }

  function DocumentLikesOn(p: CountParams, target: string): Event -> bool
  {
    (e: Event) => IsDocumentLike(p, e) && e.target == target
  }

  /** A document group's count is the number of selected likes on that document. */
  lemma DocumentCountIsGroupSize(events: seq<Event>, p: CountParams, target: string)
    requires p.queryType == Some(GetDocumentsCount)
    ensures RowFor(events, p, target).count == |Filter(events, DocumentLikesOn(p, target))|
  {
    FilterFilter(events, Selector(events, p), TargetIs(target));
    FilterAgree(events, Both(Selector(events, p), TargetIs(target)), DocumentLikesOn(p, target));
  }
}
