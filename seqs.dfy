/**
 * Sequence operations behind the event store's primitives: selecting the events a
 * predicate matches, deleting them, one page of a result, and ordering by a key.
 */
module Seqs {
  import opened Wrappers

  /** The elements of `s` that `p` accepts, in their original order. */
  function Filter<T(!new)>(s: seq<T>, p: T -> bool): (r: seq<T>)
    ensures |r| <= |s|
    ensures forall x :: x in r <==> x in s && p(x)
  {
    if s == [] then [] else (if p(s[0]) then [s[0]] else []) + Filter(s[1..], p)
  }

  function Not<T(!new)>(p: T -> bool): T -> bool
  {
    (x: T) => !p(x)
  }

  /** The elements of `s` that `p` does not accept: what a delete by predicate leaves. */
  function Reject<T(!new)>(s: seq<T>, p: T -> bool): seq<T>
  {
    Filter(s, Not(p))
  }

  lemma {:induction false} FilterAppend<T(!new)>(a: seq<T>, b: seq<T>, p: T -> bool)
    ensures Filter(a + b, p) == Filter(a, p) + Filter(b, p)
  {
    if a == [] {
      assert a + b == b;
    } else {
      var head := if p(a[0]) then [a[0]] else [];
      assert (a + b)[0] == a[0] && (a + b)[1..] == a[1..] + b;
      assert Filter(a + b, p) == head + Filter((a + b)[1..], p);
      FilterAppend(a[1..], b, p);
      calc {
        Filter(a + b, p);
        head + Filter(a[1..] + b, p);
        head + (Filter(a[1..], p) + Filter(b, p));
        (head + Filter(a[1..], p)) + Filter(b, p);
      }
    }
  }

  /** A non-empty sequence is its front followed by its last element. */
  lemma SplitLast<T>(s: seq<T>)
    requires s != []
    ensures s == s[..|s| - 1] + [s[|s| - 1]]
  {
  }

  /** Appending one element adds one to the selection's size exactly when it is accepted. */
  lemma FilterSnocCount<T(!new)>(s: seq<T>, x: T, p: T -> bool)
    ensures |Filter(s + [x], p)| == |Filter(s, p)| + (if p(x) then 1 else 0)
  {
    FilterAppend(s, [x], p);
    assert [x][1..] == [];
  }

  function Both<T(!new)>(p: T -> bool, q: T -> bool): T -> bool
  {
    (x: T) => p(x) && q(x)
  }

  /** Selecting with `p`, then with `q`, selects what both accept, in order. */
  lemma {:induction false} FilterFilter<T(!new)>(s: seq<T>, p: T -> bool, q: T -> bool)
    ensures Filter(Filter(s, p), q) == Filter(s, Both(p, q))
  {
    if s != [] {
      FilterFilter(s[1..], p, q);
      var head := if p(s[0]) then [s[0]] else [];
      assert Filter(s, p) == head + Filter(s[1..], p);
      FilterAppend(head, Filter(s[1..], p), q);
      assert Filter(head, q) == if Both(p, q)(s[0]) then [s[0]] else [];
    }
  }

  /** Filtering with predicates that agree on every element gives the same result. */
  lemma {:induction false} FilterAgree<T(!new)>(s: seq<T>, p: T -> bool, q: T -> bool)
    requires forall x :: x in s ==> p(x) == q(x)
    ensures Filter(s, p) == Filter(s, q)
  {
    if s != [] {
      FilterAgree(s[1..], p, q);
    }
  }

  lemma {:induction false} FilterAll<T(!new)>(s: seq<T>, p: T -> bool)
    requires forall x :: x in s ==> p(x)
    ensures Filter(s, p) == s
  {
    if s != [] {
      FilterAll(s[1..], p);
    }
  }

  lemma {:induction false} FilterNone<T(!new)>(s: seq<T>, p: T -> bool)
    requires forall x :: x in s ==> !p(x)
    ensures Filter(s, p) == []
  {
    if s != [] {
      FilterNone(s[1..], p);
    }
  }

  /** A weaker predicate selects at least as many elements. */
  lemma {:induction false} FilterMonotone<T(!new)>(s: seq<T>, p: T -> bool, q: T -> bool)
    requires forall x :: x in s && p(x) ==> q(x)
    ensures |Filter(s, p)| <= |Filter(s, q)|
  {
    if s != [] {
      FilterMonotone(s[1..], p, q);
    }
  }

  /** Two selections that never share an element and both lie within a third are no larger together. */
  lemma {:induction false} FilterDisjointWithin<T(!new)>(s: seq<T>, p: T -> bool, q: T -> bool, r: T -> bool)
    requires forall x :: x in s && p(x) ==> r(x)
    requires forall x :: x in s && q(x) ==> r(x)
    requires forall x :: x in s ==> !(p(x) && q(x))
    ensures |Filter(s, p)| + |Filter(s, q)| <= |Filter(s, r)|
  {
    if s != [] {
      FilterDisjointWithin(s[1..], p, q, r);
    }
  }

  /** Selecting twice with the same predicate selects nothing more. */
  lemma FilterIdempotent<T(!new)>(s: seq<T>, p: T -> bool)
    ensures Filter(Filter(s, p), p) == Filter(s, p)
  {
    FilterAll(Filter(s, p), p);
  }

  /** Nothing a delete by `p` leaves behind is matched by `p`. */
  lemma RejectLeavesNoMatch<T(!new)>(s: seq<T>, p: T -> bool)
    ensures Filter(Reject(s, p), p) == []
  {
    FilterNone(Reject(s, p), p);
  }

  /** Deleting by the same predicate a second time deletes nothing. */
  lemma RejectIdempotent<T(!new)>(s: seq<T>, p: T -> bool)
    ensures Reject(Reject(s, p), p) == Reject(s, p)
  {
    FilterIdempotent(s, Not(p));
  }

  /** Deleting what `p` matches leaves everything a disjoint predicate `q` selects. */
  lemma {:induction false} FilterRejectDisjoint<T(!new)>(s: seq<T>, p: T -> bool, q: T -> bool)
    requires forall x :: x in s && q(x) ==> !p(x)
    ensures Filter(Reject(s, p), q) == Filter(s, q)
  {
    if s != [] {
      var head := if Not(p)(s[0]) then [s[0]] else [];
      assert Reject(s, p) == head + Reject(s[1..], p);
      FilterAppend(head, Reject(s[1..], p), q);
      FilterRejectDisjoint(s[1..], p, q);
    }
  }

  /** Deleting what `p` matches removes from `q`'s selection exactly what both accept. */
  lemma {:induction false} RejectCount<T(!new)>(s: seq<T>, p: T -> bool, q: T -> bool)
    ensures |Filter(Reject(s, p), q)| + |Filter(s, Both(p, q))| == |Filter(s, q)|
  {
    if s != [] {
      var head := if Not(p)(s[0]) then [s[0]] else [];
      assert Reject(s, p) == head + Reject(s[1..], p);
      FilterAppend(head, Reject(s[1..], p), q);
      RejectCount(s[1..], p, q);
    }
  }

  /** Index of the first element of a page: a positive offset skips, capped at the length. */
  function Skip(n: nat, offset: int): (k: nat)
    ensures k <= n
    ensures offset <= 0 ==> k == 0
    ensures 0 < offset <= n ==> k == offset
    ensures offset >= n ==> k == n
  {
    if offset <= 0 then 0 else if offset < n then offset else n
  }

  /**
   * One page of a result: skip `offset` elements when it is positive, then keep at
   * most `limit` elements when it is positive.
   */
  function Page<T(!new)>(s: seq<T>, offset: int, limit: int): (r: seq<T>)
    ensures limit > 0 ==> |r| <= limit
    ensures offset <= 0 && limit <= 0 ==> r == s
    ensures |r| == if 0 < limit < |s| - Skip(|s|, offset) then limit else |s| - Skip(|s|, offset)
    ensures forall i :: 0 <= i < |r| ==> r[i] == s[Skip(|s|, offset) + i]
  {
    var rest := s[Skip(|s|, offset)..];
    if 0 < limit < |rest| then rest[..limit] else rest
  }

  /** A page past the end is empty. */
  lemma PagePastEnd<T(!new)>(s: seq<T>, offset: int, limit: int)
    requires offset >= |s|
    ensures Page(s, offset, limit) == []
  {
  }

  /** Java's `(int)` cast of a `long`: its low 32 bits, read in two's complement. */
  function IntCast(x: int): (r: int)
    ensures -0x8000_0000 <= r <= 0x7fff_ffff
    ensures (x - r) % 0x1_0000_0000 == 0
    ensures -0x8000_0000 <= x <= 0x7fff_ffff ==> r == x
    ensures x > 0 && r >= 0 ==> r <= x
  {
    LowBits(x);
    var low := x % 0x1_0000_0000;
    if low < 0x8000_0000 then low else low - 0x1_0000_0000
  }

  lemma LowBits(x: int)
    ensures x >= 0 ==> x % 0x1_0000_0000 <= x
    ensures -0x8000_0000 <= x < 0 ==> x % 0x1_0000_0000 == x + 0x1_0000_0000
  {
  }

  /**
   * The first-result and max-results values a query hands to JPA: a positive long
   * offset or limit is cast to int, any other leaves the default 0 (skip nothing, no
   * maximum). None when a cast value is negative, which JPA rejects.
   */
  function PageBounds(offset: int, limit: int): (r: Option<(int, int)>)
    ensures r.None? <==> (offset > 0 && IntCast(offset) < 0) || (limit > 0 && IntCast(limit) < 0)
    ensures r.Some? ==> 0 <= r.value.0 && 0 <= r.value.1
    ensures r.Some? && offset <= 0 ==> r.value.0 == 0
    ensures r.Some? && limit <= 0 ==> r.value.1 == 0
    ensures r.Some? && offset > 0 ==> r.value.0 <= offset && (offset - r.value.0) % 0x1_0000_0000 == 0
    ensures r.Some? && limit > 0 ==> r.value.1 <= limit && (limit - r.value.1) % 0x1_0000_0000 == 0
    ensures 0 <= offset <= 0x7fff_ffff && 0 <= limit <= 0x7fff_ffff ==> r == Some((offset, limit))
  {
    var first := if offset > 0 then IntCast(offset) else 0;
    var max := if limit > 0 then IntCast(limit) else 0;
    if first < 0 || max < 0 then None else Some((first, max))
  }

  /** Longs past the int range wrap: 2^32 + 5 becomes 5, and 2^31 becomes negative and fails. */
  lemma PageBoundsWrap()
    ensures PageBounds(0, 0x1_0000_0005) == Some((0, 5))
    ensures PageBounds(0x8000_0000, 0).None?
    ensures PageBounds(0, 0x1_0000_0000) == Some((0, 0))
  {
  }

  lemma PageWithin<T(!new)>(s: seq<T>, offset: int, limit: int, x: T)
    requires x in Page(s, offset, limit)
    ensures x in s
  {
    var r := Page(s, offset, limit);
    var i :| 0 <= i < |r| && r[i] == x;
    assert s[Skip(|s|, offset) + i] == x;
  }

  /** No element occurs twice. */
  predicate Distinct<T(==)>(s: seq<T>)
  {
    forall i, j :: 0 <= i < j < |s| ==> s[i] != s[j]
  }

  /** In a sequence without repeats every element occurs at most once. */
  lemma {:induction false} DistinctOccursOnce<T>(s: seq<T>, x: T)
    requires Distinct(s)
    ensures multiset(s)[x] <= 1
  {
    if s != [] {
      assert s == [s[0]] + s[1..];
      assert Distinct(s[1..]) by {
        forall i, j | 0 <= i < j < |s[1..]|
          ensures s[1..][i] != s[1..][j]
        {
          assert s[1..][i] == s[i + 1] && s[1..][j] == s[j + 1];
        }
      }
      DistinctOccursOnce(s[1..], x);
    }
  }

  /** An element found at two positions occurs at least twice. */
  lemma RepeatOccursTwice<T>(s: seq<T>, i: nat, j: nat)
    requires i < j < |s| && s[i] == s[j]
    ensures multiset(s)[s[i]] >= 2
  {
    assert s == s[..j] + s[j..];
    assert s[i] == s[..j][i];
    assert s[j] == s[j..][0];
    assert multiset(s) == multiset(s[..j]) + multiset(s[j..]);
  }

  /** A permutation of a sequence without repeats has no repeats. */
  lemma PermutationKeepsDistinct<T>(a: seq<T>, b: seq<T>)
    requires multiset(a) == multiset(b) && Distinct(a)
    ensures Distinct(b)
  {
    forall i, j | 0 <= i < j < |b|
      ensures b[i] != b[j]
    {
      if b[i] == b[j] {
        RepeatOccursTwice(b, i, j);
        DistinctOccursOnce(a, b[i]);
      }
    }
  }

  /** Every element of a page is an element of the whole. */
  lemma PageWithinAll<T(!new)>(s: seq<T>, offset: int, limit: int)
    ensures forall x :: x in Page(s, offset, limit) ==> x in s
  {
    forall x | x in Page(s, offset, limit)
      ensures x in s
    {
      PageWithin(s, offset, limit, x);
    }
  }

  /** `a` comes no later than `b` when ordering by the first key, then the second, both descending. */
  predicate AtLeast(a: (int, int), b: (int, int))
  {
    a.0 > b.0 || (a.0 == b.0 && a.1 >= b.1)
  }

  predicate SortedDesc<T(!new)>(s: seq<T>, key: T -> (int, int))
  {
    forall i, j :: 0 <= i < j < |s| ==> AtLeast(key(s[i]), key(s[j]))
  }

  function Insert<T(!new)>(x: T, s: seq<T>, key: T -> (int, int)): (r: seq<T>)
    requires SortedDesc(s, key)
    ensures SortedDesc(r, key)
    ensures multiset(r) == multiset(s) + multiset{x}
  {
    if s == [] then [x]
    else if AtLeast(key(x), key(s[0])) then [x] + s
    else
      var rest := Insert(x, s[1..], key);
      assert s == [s[0]] + s[1..];
      InsertHeadBound(x, s, rest, key);
      [s[0]] + rest
  }

  lemma InsertHeadBound<T(!new)>(x: T, s: seq<T>, rest: seq<T>, key: T -> (int, int))
    requires s != [] && SortedDesc(s, key) && SortedDesc(rest, key)
    requires !AtLeast(key(x), key(s[0]))
    requires multiset(rest) == multiset(s[1..]) + multiset{x}
    ensures SortedDesc([s[0]] + rest, key)
  {
    forall j | 0 <= j < |rest|
      ensures AtLeast(key(s[0]), key(rest[j]))
    {
      assert rest[j] in multiset(rest);
      if rest[j] != x {
        assert rest[j] in multiset(s[1..]);
        var k :| 0 <= k < |s[1..]| && s[1..][k] == rest[j];
        assert s[k + 1] == rest[j];
      }
    }
    var r := [s[0]] + rest;
    forall i, j | 0 <= i < j < |r|
      ensures AtLeast(key(r[i]), key(r[j]))
    {
      if i > 0 {
        assert r[i] == rest[i - 1] && r[j] == rest[j - 1];
      } else {
        assert r[j] == rest[j - 1];
      }
    }
  }

  /** A page of a sorted sequence is sorted. */
  lemma PageKeepsSorted<T(!new)>(s: seq<T>, offset: int, limit: int, key: T -> (int, int))
    requires SortedDesc(s, key)
    ensures SortedDesc(Page(s, offset, limit), key)
  {
    WindowKeepsSorted(s, Page(s, offset, limit), Skip(|s|, offset), key);
  }

  /** `r` is `s` from position `k` on, for `|r|` elements. */
  ghost predicate IsWindow<T>(s: seq<T>, r: seq<T>, k: nat)
  {
    k + |r| <= |s| && forall i :: 0 <= i < |r| ==> r[i] == s[k + i]
  }

  lemma WindowKeepsSorted<T(!new)>(s: seq<T>, r: seq<T>, k: nat, key: T -> (int, int))
    requires SortedDesc(s, key) && IsWindow(s, r, k)
    ensures SortedDesc(r, key)
  {
    forall i, j | 0 <= i < j < |r|
      ensures AtLeast(key(r[i]), key(r[j]))
    {
      assert r[i] == s[k + i] && r[j] == s[k + j];
    }
  }

  /** Selecting from a sorted sequence keeps it sorted. */
  lemma {:induction false} FilterKeepsSorted<T(!new)>(s: seq<T>, p: T -> bool, key: T -> (int, int))
    requires SortedDesc(s, key)
    ensures SortedDesc(Filter(s, p), key)
  {
    if s != [] {
      var rest := Filter(s[1..], p);
      assert SortedDesc(s[1..], key) by {
        forall i, j | 0 <= i < j < |s[1..]|
          ensures AtLeast(key(s[1..][i]), key(s[1..][j]))
        {
          assert s[1..][i] == s[i + 1] && s[1..][j] == s[j + 1];
        }
      }
      FilterKeepsSorted(s[1..], p, key);
      if p(s[0]) {
        var r := [s[0]] + rest;
        forall i, j | 0 <= i < j < |r|
          ensures AtLeast(key(r[i]), key(r[j]))
        {
          assert r[j] == rest[j - 1] && r[j] in s[1..];
          var k :| 0 <= k < |s[1..]| && s[1..][k] == r[j];
          assert s[k + 1] == r[j];
          if i > 0 {
            assert r[i] == rest[i - 1];
          }
        }
      }
    }
  }

  /** A prefix of a sorted sequence is sorted. */
  lemma PrefixKeepsSorted<T(!new)>(s: seq<T>, n: nat, key: T -> (int, int))
    requires SortedDesc(s, key) && n <= |s|
    ensures SortedDesc(s[..n], key)
  {
    forall i, j | 0 <= i < j < n
      ensures AtLeast(key(s[..n][i]), key(s[..n][j]))
    {
      assert s[..n][i] == s[i] && s[..n][j] == s[j];
    }
  }

  /** Order descending by `key` (ORDER BY ... DESC): sorted, and a permutation of the input. */
  function SortDesc<T(!new)>(s: seq<T>, key: T -> (int, int)): (r: seq<T>)
    ensures SortedDesc(r, key)
    ensures multiset(r) == multiset(s)
  {
    if s == [] then []
    else
      assert s == [s[0]] + s[1..];
      Insert(s[0], SortDesc(s[1..], key), key)
  }
}
