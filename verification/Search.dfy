/** The radius-filtered nearest-groups search of api/search.py. The great-circle distance is
    computed by an external library and is a parameter here: distanceFrom(g, u) is the distance
    from the search point to group g in unit u. */
module Search {
  import opened Wrappers
  import opened Models

  datatype DistanceUnit = MILES | KILOMETERS

  /** The query parameters. lat and lon only feed the distance computation. */
  datatype SearchParams = SearchParams(
    lat: real,
    lon: real,
    radius: real,
    hasHouse: Option<bool>,
    limit: int,
    unit: DistanceUnit)

  /** One `(group, distance)` pair of the result. */
  datatype GroupDistance = GroupDistance(group: Group, distance: real)

  /** The SQL filter on the group table: with has_house given, only groups whose has_house equals
      it; without it, every group. */
  predicate InQuery(g: Group, hasHouse: Option<bool>) {
    hasHouse.None? || g.hasHouse == hasHouse.value
  }

  /** What the generator yields for one group, if anything. The radius is inclusive. */
  predicate Yields(g: Group, params: SearchParams, distanceFrom: (Group, DistanceUnit) -> real) {
    InQuery(g, params.hasHouse) && distanceFrom(g, params.unit) <= params.radius
  }

  /** The pairs generate_group_distances yields, in table order. */
  function Filtered(groups: seq<Group>, params: SearchParams, distanceFrom: (Group, DistanceUnit) -> real): (r: seq<GroupDistance>)
    ensures |r| <= |groups|
    ensures forall i :: 0 <= i < |r| ==>
      r[i].group in groups && Yields(r[i].group, params, distanceFrom) &&
      r[i].distance == distanceFrom(r[i].group, params.unit)
  {
    if groups == [] then []
    else
      var last := groups[|groups| - 1];
      var front := Filtered(groups[..|groups| - 1], params, distanceFrom);
      if Yields(last, params, distanceFrom) then front + [GroupDistance(last, distanceFrom(last, params.unit))]
      else front
  }

  /** Every group of the table that passes both tests is yielded. */
  lemma {:induction false} FilteredComplete(groups: seq<Group>, params: SearchParams, distanceFrom: (Group, DistanceUnit) -> real, g: Group)
    requires g in groups && Yields(g, params, distanceFrom)
    ensures GroupDistance(g, distanceFrom(g, params.unit)) in Filtered(groups, params, distanceFrom)
  {
    var last := groups[|groups| - 1];
    if g != last {
      assert g in groups[..|groups| - 1];
      FilteredComplete(groups[..|groups| - 1], params, distanceFrom, g);
    }
  }

  /** generate_group_distances: stream the groups of the query and yield those within the radius,
      each with the distance it was compared by. */
  method GenerateGroupDistances(groups: seq<Group>, params: SearchParams, distanceFrom: (Group, DistanceUnit) -> real)
    returns (out: seq<GroupDistance>)
    ensures out == Filtered(groups, params, distanceFrom)
  {
    out := [];
    var i := 0;
    while i < |groups|
      invariant 0 <= i <= |groups|
      invariant out == Filtered(groups[..i], params, distanceFrom)
    {
      var group := groups[i];
      assert groups[..i + 1][..i] == groups[..i];
      // The has_house test is the SQL query's where clause in the source.
      if InQuery(group, params.hasHouse) {
        var distance := distanceFrom(group, params.unit);
        if distance <= params.radius {
          out := out + [GroupDistance(group, distance)];
        }
      }
      i := i + 1;
    }
    assert groups[..i] == groups;
  }

  // ---- Selecting the nearest ---------------------------------------------------------------

  ghost predicate SortedByDistance(s: seq<GroupDistance>) {
    forall i, j :: 0 <= i < j < |s| ==> s[i].distance <= s[j].distance
  }

  /** Insert x after every element that is not farther than x: the step of a stable insertion
      sort, where x is the latest of the elements. */
  function Insert(s: seq<GroupDistance>, x: GroupDistance): (r: seq<GroupDistance>)
    ensures |r| == |s| + 1
  {
    if s == [] then [x]
    else if x.distance < s[0].distance then [x] + s
    else [s[0]] + Insert(s[1..], x)
  }

  /** Insertion adds x and loses nothing. */
  lemma {:induction false} InsertPermutes(s: seq<GroupDistance>, x: GroupDistance)
    ensures multiset(Insert(s, x)) == multiset(s) + multiset{x}
  {
    if s != [] && s[0].distance <= x.distance {
      InsertPermutes(s[1..], x);
      assert s == [s[0]] + s[1..];
    }
  }

  /** Insertion keeps a sequence sorted by distance. */
  lemma {:induction false} InsertSorted(s: seq<GroupDistance>, x: GroupDistance)
    requires SortedByDistance(s)
    ensures SortedByDistance(Insert(s, x))
  {
    if s != [] && s[0].distance <= x.distance {
      var rest := Insert(s[1..], x);
      InsertSorted(s[1..], x);
      InsertPermutes(s[1..], x);
      forall j | 0 <= j < |rest|
        ensures s[0].distance <= rest[j].distance
      {
        assert rest[j] in multiset(s[1..]) + multiset{x} by {
          assert rest[j] in multiset(rest);
        }
        if rest[j] != x {
          assert rest[j] in s[1..];
        }
      }
      assert Insert(s, x) == [s[0]] + rest;
    }
  }

  /** sorted(xs, key=distance): the stable sort, inserting the elements one by one in order. */
  function SortByDistance(xs: seq<GroupDistance>): (r: seq<GroupDistance>)
    ensures |r| == |xs|
  {
    if xs == [] then [] else Insert(SortByDistance(xs[..|xs| - 1]), xs[|xs| - 1])
  }

  /** The sort's result is in non-decreasing order of distance. */
  lemma {:induction false} SortByDistanceSorted(xs: seq<GroupDistance>)
    ensures SortedByDistance(SortByDistance(xs))
  {
    if xs != [] {
      SortByDistanceSorted(xs[..|xs| - 1]);
      InsertSorted(SortByDistance(xs[..|xs| - 1]), xs[|xs| - 1]);
    }
  }

  /** The sort's result is a permutation of its input. */
  lemma {:induction false} SortByDistancePermutes(xs: seq<GroupDistance>)
    ensures multiset(SortByDistance(xs)) == multiset(xs)
  {
    if xs != [] {
      SortByDistancePermutes(xs[..|xs| - 1]);
      InsertPermutes(SortByDistance(xs[..|xs| - 1]), xs[|xs| - 1]);
      assert xs == xs[..|xs| - 1] + [xs[|xs| - 1]];
    }
  }

  /** The elements of s at exactly distance d, in their order in s. */
  function AtDistance(s: seq<GroupDistance>, d: real): (r: seq<GroupDistance>)
    ensures forall y :: y in r <==> y in s && y.distance == d
  {
    if s == [] then []
    else (if s[0].distance == d then [s[0]] else []) + AtDistance(s[1..], d)
  }

  lemma {:induction false} AtDistanceAppend(a: seq<GroupDistance>, b: seq<GroupDistance>, d: real)
    ensures AtDistance(a + b, d) == AtDistance(a, d) + AtDistance(b, d)
  {
    if a == [] {
      assert a + b == b;
    } else {
      assert (a + b)[1..] == a[1..] + b;
      AtDistanceAppend(a[1..], b, d);
    }
  }

  lemma {:induction false} AtDistanceNone(s: seq<GroupDistance>, d: real)
    requires forall y :: y in s ==> y.distance != d
    ensures AtDistance(s, d) == []
  {
    if s != [] {
      AtDistanceNone(s[1..], d);
    }
  }

  /** Inserting x into a sorted sequence puts it after every element at its own distance. */
  lemma {:induction false} InsertAtDistance(s: seq<GroupDistance>, x: GroupDistance, d: real)
    requires SortedByDistance(s)
    ensures AtDistance(Insert(s, x), d) == AtDistance(s, d) + (if x.distance == d then [x] else [])
  {
    if s == [] {
    } else if x.distance < s[0].distance {
      if x.distance == d {
        assert forall y :: y in s ==> y.distance > d by {
          forall y | y in s ensures y.distance > d {
            var j :| 0 <= j < |s| && s[j] == y;
            assert s[0].distance <= s[j].distance;
          }
        }
        AtDistanceNone(s, d);
      }
      assert Insert(s, x) == [x] + s;
      assert ([x] + s)[1..] == s;
    } else {
      InsertAtDistance(s[1..], x, d);
      assert Insert(s, x) == [s[0]] + Insert(s[1..], x);
      assert ([s[0]] + Insert(s[1..], x))[1..] == Insert(s[1..], x);
    }
  }

  /** The sort is stable: the elements at any one distance keep their input order. */
  lemma {:induction false} SortByDistanceStable(xs: seq<GroupDistance>, d: real)
    ensures AtDistance(SortByDistance(xs), d) == AtDistance(xs, d)
  {
    if xs != [] {
      var front, last := xs[..|xs| - 1], xs[|xs| - 1];
      SortByDistanceStable(front, d);
      SortByDistanceSorted(front);
      InsertAtDistance(SortByDistance(front), last, d);
      assert xs == front + [last];
      AtDistanceAppend(front, [last], d);
    }
  }

  /** The slice s[:n] as Python takes it for a count n that is at least 0, and [] for n <= 0
      (heapq.nsmallest returns [] for every n <= 0). */
  function Take(s: seq<GroupDistance>, n: int): (r: seq<GroupDistance>)
    ensures n <= 0 ==> r == []
    ensures 0 <= n ==> |r| == if n < |s| then n else |s|
    ensures r <= s
  {
    if n <= 0 then [] else if n < |s| then s[..n] else s
  }

  /** heapq.nsmallest(n, xs, key=distance), which Python documents as sorted(xs, key=key)[:n]. */
  function NSmallest(n: int, xs: seq<GroupDistance>): seq<GroupDistance> {
    Take(SortByDistance(xs), n)
  }

  lemma TakeCons(a: GroupDistance, t: seq<GroupDistance>, k: int)
    requires k >= 1
    ensures Take([a] + t, k) == [a] + Take(t, k - 1)
  {
  }

  /** Only the first k elements of s matter for the first k elements after an insertion. */
  lemma {:induction false} TakeInsert(s: seq<GroupDistance>, x: GroupDistance, k: int)
    ensures Take(Insert(s, x), k) == Take(Insert(Take(s, k), x), k)
  {
    if k <= 0 || |s| <= k {
    } else {
      var t := Take(s, k);
      assert t == s[..k] && t[0] == s[0];
      if x.distance < s[0].distance {
        TakeCons(x, s, k);
        TakeCons(x, t, k);
        assert Take(t, k - 1) == Take(s, k - 1);
      } else {
        assert t[1..] == Take(s[1..], k - 1);
        assert Insert(s, x) == [s[0]] + Insert(s[1..], x);
        assert Insert(t, x) == [s[0]] + Insert(t[1..], x);
        TakeCons(s[0], Insert(s[1..], x), k);
        TakeCons(s[0], Insert(t[1..], x), k);
        TakeInsert(s[1..], x, k - 1);
      }
    }
  }

  /** Into a sorted sequence whose last element is not farther than x, x goes at the end. */
  lemma {:induction false} InsertAtEnd(s: seq<GroupDistance>, x: GroupDistance)
    requires SortedByDistance(s)
    requires s != [] ==> s[|s| - 1].distance <= x.distance
    ensures Insert(s, x) == s + [x]
  {
    if s != [] {
      assert s[0].distance <= s[|s| - 1].distance;
      InsertAtEnd(s[1..], x);
    }
  }

  /** The buffer's update for one more element, as NSmallestBounded performs it. */
  function BufferStep(kept: seq<GroupDistance>, n: int, x: GroupDistance): seq<GroupDistance>
    requires 0 < n
  {
    if |kept| < n then Insert(kept, x)
    else if x.distance < kept[|kept| - 1].distance then Insert(kept, x)[..n]
    else kept
  }

  /** If the buffer holds the nearest n of the sorted elements seen so far, after one step it
      holds the nearest n of those and the next one. */
  lemma BufferStepKeepsNearest(sorted: seq<GroupDistance>, kept: seq<GroupDistance>, n: int, x: GroupDistance)
    requires 0 < n && SortedByDistance(sorted) && kept == Take(sorted, n)
    ensures BufferStep(kept, n, x) == Take(Insert(sorted, x), n)
  {
    TakeInsert(sorted, x, n);
    if |kept| >= n && x.distance >= kept[|kept| - 1].distance {
      assert SortedByDistance(kept) by {
        assert kept <= sorted;
      }
      InsertAtEnd(kept, x);
      assert Take(kept + [x], n) == kept;
    }
  }

  /** The nearest n in a bounded sorted buffer, as the heap algorithm does: the first n elements
      go in; after that an element goes in only when it is strictly nearer than the farthest one
      kept, which then leaves. The buffer never holds more than n elements. */
  method NSmallestBounded(n: int, xs: seq<GroupDistance>) returns (kept: seq<GroupDistance>)
    ensures kept == NSmallest(n, xs)
  {
    kept := [];
    if n <= 0 {
      return;
    }
    var i := 0;
    while i < |xs|
      invariant 0 <= i <= |xs|
      invariant kept == Take(SortByDistance(xs[..i]), n)
    {
      var x := xs[i];
      assert xs[..i + 1][..i] == xs[..i] && xs[..i + 1][i] == x;
      ghost var sorted := SortByDistance(xs[..i]);
      assert SortByDistance(xs[..i + 1]) == Insert(sorted, x);
      SortByDistanceSorted(xs[..i]);
      BufferStepKeepsNearest(sorted, kept, n, x);
      ghost var next := BufferStep(kept, n, x);
      if |kept| < n {
        kept := Insert(kept, x);
      } else if x.distance < kept[|kept| - 1].distance {
        kept := Insert(kept, x)[..n];
      }
      assert kept == next;
      i := i + 1;
    }
    assert xs[..i] == xs;
  }

  /** search_nearest_groups: the limit nearest of the yielded pairs, nearest first. */
  method SearchNearestGroups(groups: seq<Group>, params: SearchParams, distanceFrom: (Group, DistanceUnit) -> real)
    returns (result: seq<GroupDistance>)
    ensures result == NSmallest(params.limit, Filtered(groups, params, distanceFrom))
  {
    var groupDistances := GenerateGroupDistances(groups, params, distanceFrom);
    result := NSmallestBounded(params.limit, groupDistances);
  }

  /** What the selection promises: at most n results, none for n <= 0 or no input, nearest first,
      drawn from the input, and every input left out at least as far as every result. */
  lemma {:induction false} NSmallestProperties(n: int, xs: seq<GroupDistance>)
    ensures |NSmallest(n, xs)| <= |xs| && (n >= 0 ==> |NSmallest(n, xs)| <= n)
    ensures n <= 0 || xs == [] ==> NSmallest(n, xs) == []
    ensures n >= |xs| ==> multiset(NSmallest(n, xs)) == multiset(xs)
    ensures forall i, j :: 0 <= i < j < |NSmallest(n, xs)| ==> NSmallest(n, xs)[i].distance <= NSmallest(n, xs)[j].distance
    ensures multiset(NSmallest(n, xs)) <= multiset(xs)
    ensures forall y, z :: y in multiset(xs) - multiset(NSmallest(n, xs)) && z in NSmallest(n, xs) ==> z.distance <= y.distance
  {
    var sorted := SortByDistance(xs);
    SortByDistanceSorted(xs);
    SortByDistancePermutes(xs);
    var r := NSmallest(n, xs);
    var k := |r|;
    assert r == sorted[..k];
    assert sorted == sorted[..k] + sorted[k..];
    assert multiset(sorted) == multiset(sorted[..k]) + multiset(sorted[k..]);
    forall y, z | y in multiset(xs) - multiset(r) && z in r
      ensures z.distance <= y.distance
    {
      assert y in multiset(sorted[k..]);
      var j :| 0 <= j < |sorted[k..]| && sorted[k..][j] == y;
      var i :| 0 <= i < k && r[i] == z;
      assert sorted[i] == z && sorted[k + j] == y;
    }
  }

  /** What the search returns: at most limit groups, none for limit <= 0 or no candidate, nearest
      first; each one passes the has_house filter, lies within the radius (inclusive) and carries
      the distance it was compared by, in the unit of the radius; and every qualifying group left
      out is at least as far as every group returned. */
  lemma SearchNearestGroupsProperties(groups: seq<Group>, params: SearchParams, distanceFrom: (Group, DistanceUnit) -> real)
    ensures var r := NSmallest(params.limit, Filtered(groups, params, distanceFrom));
      && |r| <= |groups|
      && (params.limit >= 0 ==> |r| <= params.limit)
      && (params.limit <= 0 || groups == [] ==> r == [])
      && (forall i, j :: 0 <= i < j < |r| ==> r[i].distance <= r[j].distance)
      && (forall i :: 0 <= i < |r| ==>
            && r[i].group in groups
            && (params.hasHouse.Some? ==> r[i].group.hasHouse == params.hasHouse.value)
            && r[i].distance <= params.radius
            && r[i].distance == distanceFrom(r[i].group, params.unit))
      && (forall g, z ::
            (g in groups && Yields(g, params, distanceFrom) && z in r &&
             GroupDistance(g, distanceFrom(g, params.unit)) !in r) ==> z.distance <= distanceFrom(g, params.unit))
  {
    var hits := Filtered(groups, params, distanceFrom);
    var r := NSmallest(params.limit, hits);
    NSmallestProperties(params.limit, hits);
    forall i | 0 <= i < |r|
      ensures r[i] in hits
    {
      assert r[i] in multiset(r);
    }
    forall g, z | g in groups && Yields(g, params, distanceFrom) && z in r &&
                  GroupDistance(g, distanceFrom(g, params.unit)) !in r
      ensures z.distance <= distanceFrom(g, params.unit)
    {
      var y := GroupDistance(g, distanceFrom(g, params.unit));
      FilteredComplete(groups, params, distanceFrom, g);
      assert y in multiset(hits) - multiset(r);
    }
  }
}
