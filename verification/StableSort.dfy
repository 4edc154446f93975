/** A stable sort, as the standard libraries provide it, for any comparison. */
module StableSort {

  function Insert<T>(less: (T, T) -> bool, x: T, sorted: seq<T>): seq<T> {
    if sorted == [] || !less(sorted[0], x) then [x] + sorted else [sorted[0]] + Insert(less, x, sorted[1..])
  }

  function Sort<T>(less: (T, T) -> bool, s: seq<T>): seq<T> {
    if s == [] then [] else Insert(less, s[0], Sort(less, s[1..]))
  }

  function Filter<T>(keep: T -> bool, s: seq<T>): seq<T> {
    if s == [] then [] else if keep(s[0]) then [s[0]] + Filter(keep, s[1..]) else Filter(keep, s[1..])
  }

  /** On valid elements, "before" goes one way only and "not after" is transitive. */
  ghost predicate Orders<T(!new)>(less: (T, T) -> bool, valid: T -> bool) {
    && (forall a, b :: valid(a) && valid(b) && less(a, b) ==> !less(b, a))
    && (forall a, b, c :: valid(a) && valid(b) && valid(c) && less(a, c) ==> less(a, b) || less(b, c))
  }

  ghost predicate AllValid<T>(valid: T -> bool, s: seq<T>) {
    forall i :: 0 <= i < |s| ==> valid(s[i])
  }

  ghost predicate Ordered<T>(less: (T, T) -> bool, s: seq<T>) {
    forall i, j :: 0 <= i < j < |s| ==> !less(s[j], s[i])
  }

  lemma {:induction false} InsertMembers<T>(less: (T, T) -> bool, x: T, sorted: seq<T>)
    ensures multiset(Insert(less, x, sorted)) == multiset(sorted) + multiset{x}
    ensures forall y :: y in Insert(less, x, sorted) <==> y == x || y in sorted
  {
    if sorted != [] && less(sorted[0], x) {
      InsertMembers(less, x, sorted[1..]);
      assert sorted == [sorted[0]] + sorted[1..];
    }
  }

  lemma {:induction false} SortMembers<T>(less: (T, T) -> bool, s: seq<T>)
    ensures multiset(Sort(less, s)) == multiset(s)
    ensures forall x :: x in Sort(less, s) <==> x in s
    ensures |Sort(less, s)| == |s|
  {
    if s != [] {
      SortMembers(less, s[1..]);
      InsertMembers(less, s[0], Sort(less, s[1..]));
      assert s == [s[0]] + s[1..];
    }
    assert |multiset(Sort(less, s))| == |Sort(less, s)| && |multiset(s)| == |s|;
  }

  /** Whatever is not before the head of an ordered run is not before any of it. */
  lemma NotBeforeAny<T(!new)>(less: (T, T) -> bool, valid: T -> bool, x: T, sorted: seq<T>)
    requires Orders(less, valid) && valid(x) && AllValid(valid, sorted) && Ordered(less, sorted)
    requires sorted != [] && !less(sorted[0], x)
    ensures forall j :: 0 <= j < |sorted| ==> !less(sorted[j], x)
  {
    forall j | 0 < j < |sorted| ensures !less(sorted[j], x) {
      assert !less(sorted[j], sorted[0]);
    }
  }

  lemma {:induction false} InsertOrdered<T(!new)>(less: (T, T) -> bool, valid: T -> bool, x: T, sorted: seq<T>)
    requires Orders(less, valid) && valid(x) && AllValid(valid, sorted) && Ordered(less, sorted)
    ensures Ordered(less, Insert(less, x, sorted)) && AllValid(valid, Insert(less, x, sorted))
  {
    if sorted != [] {
      if less(sorted[0], x) {
        var tail := sorted[1..];
        InsertOrdered(less, valid, x, tail);
        InsertMembers(less, x, tail);
        var rest := Insert(less, x, tail);
        forall j | 0 <= j < |rest| ensures !less(rest[j], sorted[0]) {
          assert rest[j] in rest;
          if rest[j] != x {
            var k :| 0 <= k < |tail| && tail[k] == rest[j];
            assert !less(sorted[k + 1], sorted[0]);
          }
        }
      } else {
        NotBeforeAny(less, valid, x, sorted);
      }
    }
  }

  lemma {:induction false} SortOrdered<T(!new)>(less: (T, T) -> bool, valid: T -> bool, s: seq<T>)
    requires Orders(less, valid) && AllValid(valid, s)
    ensures Ordered(less, Sort(less, s)) && AllValid(valid, Sort(less, s))
  {
    if s != [] {
      SortOrdered(less, valid, s[1..]);
      InsertOrdered(less, valid, s[0], Sort(less, s[1..]));
    }
  }

  lemma {:induction false} FilterMembers<T>(keep: T -> bool, s: seq<T>)
    ensures forall x :: x in Filter(keep, s) <==> x in s && keep(x)
  {
    if s != [] {
      FilterMembers(keep, s[1..]);
      assert s == [s[0]] + s[1..];
    }
  }

  lemma {:induction false} FilterInsert<T(!new)>(less: (T, T) -> bool, valid: T -> bool, keep: T -> bool,
                                                x: T, sorted: seq<T>)
    requires Orders(less, valid) && valid(x) && AllValid(valid, sorted) && Ordered(less, sorted)
    ensures Filter(keep, Insert(less, x, sorted))
         == if keep(x) then Insert(less, x, Filter(keep, sorted)) else Filter(keep, sorted)
  {
    if sorted != [] {
      if less(sorted[0], x) {
        assert Insert(less, x, sorted)[1..] == Insert(less, x, sorted[1..]);
        FilterInsert(less, valid, keep, x, sorted[1..]);
        if keep(sorted[0]) { assert Filter(keep, sorted)[1..] == Filter(keep, sorted[1..]); }
      } else {
        assert Insert(less, x, sorted)[1..] == sorted;
        NotBeforeAny(less, valid, x, sorted);
        FilterMembers(keep, sorted);
        var kept := Filter(keep, sorted);
        if kept != [] { assert kept[0] in kept && kept[0] in sorted; }
      }
    }
  }

  /** Dropping elements before or after sorting comes to the same. */
  lemma {:induction false} FilterSort<T(!new)>(less: (T, T) -> bool, valid: T -> bool, keep: T -> bool, s: seq<T>)
    requires Orders(less, valid) && AllValid(valid, s)
    ensures Filter(keep, Sort(less, s)) == Sort(less, Filter(keep, s))
  {
    if s != [] {
      FilterSort(less, valid, keep, s[1..]);
      SortOrdered(less, valid, s[1..]);
      FilterInsert(less, valid, keep, s[0], Sort(less, s[1..]));
      if keep(s[0]) { assert Filter(keep, s)[1..] == Filter(keep, s[1..]); }
    }
  }

  // ---- Stability ----

  /** Neither comes before the other. */
  predicate Ties<T>(less: (T, T) -> bool, x: T, y: T) {
    !less(x, y) && !less(y, x)
  }

  lemma {:induction false} InsertStable<T(!new)>(less: (T, T) -> bool, valid: T -> bool, tie: T, x: T, sorted: seq<T>)
    requires Orders(less, valid) && valid(tie) && valid(x) && AllValid(valid, sorted)
    ensures Filter(y => Ties(less, tie, y), Insert(less, x, sorted))
      == (if Ties(less, tie, x) then [x] else []) + Filter(y => Ties(less, tie, y), sorted)
  {
    if sorted != [] && less(sorted[0], x) {
      var head, tail := sorted[0], sorted[1..];
      assert valid(head) && AllValid(valid, tail);
      InsertStable(less, valid, tie, x, tail);
      assert Ties(less, tie, x) ==> !Ties(less, tie, head);
      assert ([head] + Insert(less, x, tail))[1..] == Insert(less, x, tail);
    } else {
      assert ([x] + sorted)[1..] == sorted;
    }
  }

  /** Elements that tie keep the order they came in. */
  lemma {:induction false} SortStable<T(!new)>(less: (T, T) -> bool, valid: T -> bool, tie: T, s: seq<T>)
    requires Orders(less, valid) && valid(tie) && AllValid(valid, s)
    ensures Filter(y => Ties(less, tie, y), Sort(less, s)) == Filter(y => Ties(less, tie, y), s)
  {
    if s != [] {
      assert AllValid(valid, s[1..]);
      SortStable(less, valid, tie, s[1..]);
      SortMembers(less, s[1..]);
      var sorted := Sort(less, s[1..]);
      forall i | 0 <= i < |sorted| ensures valid(sorted[i]) {
        assert sorted[i] in s[1..];
      }
      InsertStable(less, valid, tie, s[0], sorted);
    }
  }
}
