/**
 Stable sorting by a total preorder, as Python's `sorted(..., key=...)`: equal keys keep their order.
 Filtering commutes with it, and when the order is strict on distinct elements the result depends only
 on the elements, not on the order they came in.
 */
module Sorting {

  ghost predicate TotalPreorder<T(!new)>(leq: (T, T) -> bool)
  {
    && (forall x, y :: leq(x, y) || leq(y, x))
    && (forall x, y, z :: leq(x, y) && leq(y, z) ==> leq(x, z))
  }

  predicate Ordered<T>(leq: (T, T) -> bool, s: seq<T>)
  {
    forall i, j :: 0 <= i < j < |s| ==> leq(s[i], s[j])
  }

  /** `x` goes behind every leading element that does not come after it. */
  function Insert<T>(leq: (T, T) -> bool, x: T, s: seq<T>): (r: seq<T>)
    ensures |r| == |s| + 1
    decreases |s|
  {
    if s == [] || !leq(s[0], x) then [x] + s else [s[0]] + Insert(leq, x, s[1..])
  }

  function Sort<T>(leq: (T, T) -> bool, s: seq<T>): (r: seq<T>)
    ensures |r| == |s|
    decreases |s|
  {
    if s == [] then [] else Insert(leq, s[|s| - 1], Sort(leq, s[..|s| - 1]))
  }

  function Filter<T>(keep: T -> bool, s: seq<T>): (r: seq<T>)
    ensures |r| <= |s|
    decreases |s|
  {
    if s == [] then []
    else
      var front := Filter(keep, s[..|s| - 1]);
      if keep(s[|s| - 1]) then front + [s[|s| - 1]] else front
  }

  // ---------------------------------------------------------------- filtering

  lemma {:induction false} FilterConcat<T(!new)>(keep: T -> bool, a: seq<T>, b: seq<T>)
    ensures Filter(keep, a + b) == Filter(keep, a) + Filter(keep, b)
    decreases |b|
  {
    if b == [] {
      assert a + b == a;
    } else {
      var x := b[|b| - 1];
      assert (a + b)[..|a + b| - 1] == a + b[..|b| - 1];
      FilterConcat(keep, a, b[..|b| - 1]);
    }
  }

  lemma {:induction false} FilterElements<T(!new)>(keep: T -> bool, s: seq<T>)
    ensures forall x :: x in Filter(keep, s) <==> x in s && keep(x)
    decreases |s|
  {
    if s != [] {
      FilterElements(keep, s[..|s| - 1]);
      assert s == s[..|s| - 1] + [s[|s| - 1]];
    }
  }

  lemma {:induction false} FilterNone<T(!new)>(keep: T -> bool, s: seq<T>)
    requires forall x :: x in s ==> !keep(x)
    ensures Filter(keep, s) == []
    decreases |s|
  {
    if s != [] {
      FilterNone(keep, s[..|s| - 1]);
    }
  }

  lemma {:induction false} FilterOrdered<T(!new)>(leq: (T, T) -> bool, keep: T -> bool, s: seq<T>)
    requires Ordered(leq, s)
    ensures Ordered(leq, Filter(keep, s))
    decreases |s|
  {
    if s != [] {
      var front := s[..|s| - 1];
      FilterOrdered(leq, keep, front);
      FilterElements(keep, front);
      var f := Filter(keep, front);
      forall i | 0 <= i < |f| ensures leq(f[i], s[|s| - 1]) {
        assert f[i] in f && f[i] in front;
      }
    }
  }

  // ---------------------------------------------------------------- sorting

  lemma {:induction false} InsertElements<T(!new)>(leq: (T, T) -> bool, x: T, s: seq<T>)
    ensures multiset(Insert(leq, x, s)) == multiset(s) + multiset{x}
    decreases |s|
  {
    if s == [] || !leq(s[0], x) {
    } else {
      InsertElements(leq, x, s[1..]);
      assert s == [s[0]] + s[1..];
    }
  }

  lemma {:induction false} InsertOrdered<T(!new)>(leq: (T, T) -> bool, x: T, s: seq<T>)
    requires TotalPreorder(leq) && Ordered(leq, s)
    ensures Ordered(leq, Insert(leq, x, s))
    decreases |s|
  {
    if s == [] {
    } else if !leq(s[0], x) {
      var r := [x] + s;
      forall i, j | 0 <= i < j < |r| ensures leq(r[i], r[j]) {
        if i == 0 {
          assert r[j] == s[j - 1];
          assert leq(x, s[0]) && (j == 1 || leq(s[0], s[j - 1]));
        }
      }
    } else {
      var rest := Insert(leq, x, s[1..]);
      InsertOrdered(leq, x, s[1..]);
      InsertElements(leq, x, s[1..]);
      forall j | 0 <= j < |rest| ensures leq(s[0], rest[j]) {
        assert rest[j] in multiset(rest);
        assert rest[j] == x || rest[j] in s[1..];
      }
    }
  }

  lemma {:induction false} SortElements<T(!new)>(leq: (T, T) -> bool, s: seq<T>)
    ensures multiset(Sort(leq, s)) == multiset(s)
    ensures forall x :: x in Sort(leq, s) <==> x in s
    decreases |s|
  {
    if s != [] {
      SortElements(leq, s[..|s| - 1]);
      InsertElements(leq, s[|s| - 1], Sort(leq, s[..|s| - 1]));
      assert s == s[..|s| - 1] + [s[|s| - 1]];
    }
    SameMultisetSameElements(Sort(leq, s), s);
  }

  lemma SameMultisetSameElements<T(!new)>(a: seq<T>, b: seq<T>)
    requires multiset(a) == multiset(b)
    ensures forall x :: x in a <==> x in b
  {
    forall x ensures x in a <==> x in b {
      assert x in a <==> x in multiset(a);
      assert x in b <==> x in multiset(b);
    }
  }

  lemma {:induction false} SortOrdered<T(!new)>(leq: (T, T) -> bool, s: seq<T>)
    requires TotalPreorder(leq)
    ensures Ordered(leq, Sort(leq, s))
    decreases |s|
  {
    if s != [] {
      SortOrdered(leq, s[..|s| - 1]);
      InsertOrdered(leq, s[|s| - 1], Sort(leq, s[..|s| - 1]));
    }
  }

  lemma {:induction false} InsertLast<T(!new)>(leq: (T, T) -> bool, x: T, s: seq<T>)
    requires forall i :: 0 <= i < |s| ==> leq(s[i], x)
    ensures Insert(leq, x, s) == s + [x]
    decreases |s|
  {
    if s != [] {
      InsertLast(leq, x, s[1..]);
      assert s == [s[0]] + s[1..];
    }
  }

  /** What is already in order stays as it is. */
  lemma {:induction false} SortOfOrdered<T(!new)>(leq: (T, T) -> bool, s: seq<T>)
    requires Ordered(leq, s)
    ensures Sort(leq, s) == s
    decreases |s|
  {
    if s != [] {
      SortOfOrdered(leq, s[..|s| - 1]);
      InsertLast(leq, s[|s| - 1], s[..|s| - 1]);
    }
  }

  lemma {:induction false} FilterOfInsert<T(!new)>(leq: (T, T) -> bool, keep: T -> bool, x: T, s: seq<T>)
    requires TotalPreorder(leq) && Ordered(leq, s)
    ensures Filter(keep, Insert(leq, x, s))
            == if keep(x) then Insert(leq, x, Filter(keep, s)) else Filter(keep, s)
    decreases |s|, 1
  {
    FilterOne(keep, x);
    if s == [] {
      assert [x] + s == [x];
    } else if !leq(s[0], x) {
      InsertBeforeFiltered(leq, keep, x, s);
    } else {
      InsertBehindHead(leq, keep, x, s);
    }
  }

  lemma InsertBeforeFiltered<T(!new)>(leq: (T, T) -> bool, keep: T -> bool, x: T, s: seq<T>)
    requires TotalPreorder(leq) && Ordered(leq, s) && s != [] && !leq(s[0], x)
    ensures Filter(keep, Insert(leq, x, s))
            == if keep(x) then Insert(leq, x, Filter(keep, s)) else Filter(keep, s)
  {
    FilterOne(keep, x);
    FilterConcat(keep, [x], s);
    FilterElements(keep, s);
    var f := Filter(keep, s);
    if f != [] {
      assert f[0] in f && f[0] in s;
      assert f[0] == s[0] || leq(s[0], f[0]);
      assert !leq(f[0], x);
    }
  }

  lemma {:induction false} InsertBehindHead<T(!new)>(leq: (T, T) -> bool, keep: T -> bool, x: T, s: seq<T>)
    requires TotalPreorder(leq) && Ordered(leq, s) && s != [] && leq(s[0], x)
    ensures Filter(keep, Insert(leq, x, s))
            == if keep(x) then Insert(leq, x, Filter(keep, s)) else Filter(keep, s)
    decreases |s|, 0
  {
    var rest := s[1..];
    FilterOne(keep, s[0]);
    FilterConcat(keep, [s[0]], Insert(leq, x, rest));
    FilterConcat(keep, [s[0]], rest);
    assert s == [s[0]] + rest;
    FilterOfInsert(leq, keep, x, rest);
    if keep(s[0]) {
      var f := [s[0]] + Filter(keep, rest);
      assert f[0] == s[0] && f[1..] == Filter(keep, rest);
    } else {
      assert [] + Filter(keep, rest) == Filter(keep, rest);
      assert [] + Filter(keep, Insert(leq, x, rest)) == Filter(keep, Insert(leq, x, rest));
    }
  }

  lemma FilterOne<T(!new)>(keep: T -> bool, x: T)
    ensures Filter(keep, [x]) == if keep(x) then [x] else []
  {
    assert [x][..0] == [];
  }

  /** Filtering before a stable sort and filtering after it give the same sequence. */
  lemma {:induction false} FilterOfSort<T(!new)>(leq: (T, T) -> bool, keep: T -> bool, s: seq<T>)
    requires TotalPreorder(leq)
    ensures Filter(keep, Sort(leq, s)) == Sort(leq, Filter(keep, s))
    decreases |s|
  {
    if s != [] {
      var front, x := s[..|s| - 1], s[|s| - 1];
      FilterOfSort(leq, keep, front);
      SortOrdered(leq, front);
      FilterOfInsert(leq, keep, x, Sort(leq, front));
      if keep(x) {
        var f := Filter(keep, s);
        assert f[..|f| - 1] == Filter(keep, front) && f[|f| - 1] == x;
      }
    }
  }

  // ---------------------------------------------------------------- canonical order

  /** No two different elements of `s` are equal in the order. */
  ghost predicate Strict<T(!new)>(leq: (T, T) -> bool, s: multiset<T>)
  {
    forall x, y :: x in s && y in s && leq(x, y) && leq(y, x) ==> x == y
  }

  /** Two ordered arrangements of the same elements are the same sequence. */
  lemma {:induction false} OrderedIsUnique<T(!new)>(leq: (T, T) -> bool, a: seq<T>, b: seq<T>)
    requires TotalPreorder(leq) && Ordered(leq, a) && Ordered(leq, b)
    requires multiset(a) == multiset(b) && Strict(leq, multiset(a))
    ensures a == b
    decreases |a|
  {
    assert |a| == |multiset(a)| == |multiset(b)| == |b|;
    if a != [] {
      SameHead(leq, a, b);
      RestOf(a);
      RestOf(b);
      OrderedIsUnique(leq, a[1..], b[1..]);
    }
  }

  lemma SameHead<T(!new)>(leq: (T, T) -> bool, a: seq<T>, b: seq<T>)
    requires TotalPreorder(leq) && Ordered(leq, a) && Ordered(leq, b) && a != [] && b != []
    requires multiset(a) == multiset(b) && Strict(leq, multiset(a))
    ensures a[0] == b[0]
  {
    assert a[0] in multiset(b) && b[0] in multiset(a);
    HeadIsLeast(leq, a, b[0]);
    HeadIsLeast(leq, b, a[0]);
  }

  lemma HeadIsLeast<T(!new)>(leq: (T, T) -> bool, s: seq<T>, x: T)
    requires TotalPreorder(leq) && Ordered(leq, s) && x in s
    ensures leq(s[0], x)
  {
    var i :| 0 <= i < |s| && s[i] == x;
  }

  lemma RestOf<T>(s: seq<T>)
    requires s != []
    ensures s == [s[0]] + s[1..] && multiset(s[1..]) == multiset(s) - multiset{s[0]}
  {
    assert s == [s[0]] + s[1..];
  }

  /** The order in which distinct-keyed elements arrive does not matter. */
  lemma SortIsCanonical<T(!new)>(leq: (T, T) -> bool, a: seq<T>, b: seq<T>)
    requires TotalPreorder(leq) && multiset(a) == multiset(b) && Strict(leq, multiset(a))
    ensures Sort(leq, a) == Sort(leq, b)
  {
    SortOrdered(leq, a);
    SortOrdered(leq, b);
    SortElements(leq, a);
    SortElements(leq, b);
    OrderedIsUnique(leq, Sort(leq, a), Sort(leq, b));
  }
}
