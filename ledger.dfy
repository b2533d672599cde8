/**
 * The activity store as the rating code uses it: add one activity, remove activities
 * by id, delete the activities a predicate matches.
 */
module Ledger {
  import opened Wrappers
  import opened Seqs
  import opened Activities

  /** No two stored activities share an id. */
  ghost predicate UniqueIds(events: seq<Event>)
  {
    forall x, y :: x in events && y in events && x.id == y.id ==> x == y
  }

  /** Ids of a list of activities, as a set (ActivitiesList.toActivityIds). */
  function IdsOf(events: seq<Event>): set<int>
  {
    set e | e in events :: e.id
  }

  function HasIdIn(ids: set<int>): Event -> bool
  {
    (e: Event) => e.id in ids
  }

  /** Removing the ids of the activities `p` selects removes exactly those activities. */
  lemma RemoveSelectedIds(events: seq<Event>, p: Event -> bool)
    requires UniqueIds(events)
    ensures Reject(events, HasIdIn(IdsOf(Filter(events, p)))) == Reject(events, p)
  {
    var ids := IdsOf(Filter(events, p));
    forall x | x in events
      ensures Not(HasIdIn(ids))(x) == Not(p)(x)
    {
      if x.id in ids {
        var y :| y in Filter(events, p) && y.id == x.id;
        assert y == x;
      }
    }
    FilterAgree(events, Not(HasIdIn(ids)), Not(p));
  }

  class Ledger {
    /** The stored activities, oldest first. */
    var events: seq<Event>
    /** The id the next added activity receives. */
    var nextId: int

    ghost predicate Valid()
      reads this
    {
      UniqueIds(events) && forall e :: e in events ==> e.id < nextId
    }

    constructor ()
      ensures Valid() && events == [] && nextId == 0
    {
      events := [];
      nextId := 0;
    }

    /** Adds one activity; the store assigns its id. */
    method AddActivity(actor: string, verb: string, target: string, obj: string,
                       context: Option<string>, published: int) returns (id: int)
      requires Valid()
      modifies this
      ensures Valid()
      ensures id == old(nextId) && nextId == old(nextId) + 1
      ensures events == old(events) + [Event(id, actor, verb, target, obj, context, published)]
    {
      id := nextId;
      events := events + [Event(id, actor, verb, target, obj, context, published)];
      nextId := nextId + 1;
    }

    /** Removes the activities whose id is in `ids`. */
    method RemoveActivities(ids: set<int>)
      requires Valid()
      modifies this
      ensures Valid() && nextId == old(nextId)
      ensures events == Reject(old(events), HasIdIn(ids))
    {
      events := Reject(events, HasIdIn(ids));
    }

    /** Deletes the activities `p` matches (a bulk delete statement). */
    method DeleteWhere(p: Event -> bool)
      requires Valid()
      modifies this
      ensures Valid() && nextId == old(nextId)
      ensures events == Reject(old(events), p)
    {
      events := Reject(events, p);
    }
  }
}
