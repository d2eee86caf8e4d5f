/** Finite sums of reals over a set of keys. The order in which the keys are taken does not matter. */
module Sums {
  import opened Wrappers

  ghost function Sum<K(!new)>(keys: set<K>, f: K -> real): real
  {
    if keys == {} then 0.0
    else
      var k :| k in keys;
      f(k) + Sum(keys - {k}, f)
  }

  /** Any key may be taken first. */
  lemma {:induction false} SumTake<K(!new)>(keys: set<K>, f: K -> real, k: K)
    requires k in keys
    ensures Sum(keys, f) == f(k) + Sum(keys - {k}, f)
    decreases keys
  {
    var c :| c in keys && Sum(keys, f) == f(c) + Sum(keys - {c}, f);
    if c != k {
      SumTake(keys - {c}, f, k);
      SumTake(keys - {k}, f, c);
      assert keys - {c} - {k} == keys - {k} - {c};
    }
  }

  /** Adds the values one key at a time. */
  method SumOver<K(!new,==)>(keys: set<K>, f: K -> real) returns (t: real)
    ensures t == Sum(keys, f)
  {
    t := 0.0;
    var rest := keys;
    while rest != {}
      invariant rest <= keys && t + Sum(rest, f) == Sum(keys, f)
      decreases rest
    {
      ghost var some := Member(rest);
      var k :| k in rest;
      SumTake(rest, f, k);
      t := t + f(k);
      rest := rest - {k};
    }
  }

  /** A new key adds its own value. */
  lemma {:induction false} SumAddKey<K(!new)>(keys: set<K>, f: K -> real, k: K)
    requires k !in keys
    ensures Sum(keys + {k}, f) == f(k) + Sum(keys, f)
  {
    SumTake(keys + {k}, f, k);
    assert keys + {k} - {k} == keys;
  }

  lemma {:induction false} SumCongruent<K(!new)>(keys: set<K>, f: K -> real, g: K -> real)
    requires forall k :: k in keys ==> f(k) == g(k)
    ensures Sum(keys, f) == Sum(keys, g)
    decreases keys
  {
    if keys != {} {
      var k :| k in keys;
      SumTake(keys, f, k);
      SumTake(keys, g, k);
      SumCongruent(keys - {k}, f, g);
    }
  }

  lemma {:induction false} SumAtMost<K(!new)>(keys: set<K>, f: K -> real, g: K -> real)
    requires forall k :: k in keys ==> f(k) <= g(k)
    ensures Sum(keys, f) <= Sum(keys, g)
    decreases keys
  {
    if keys != {} {
      var k :| k in keys;
      SumTake(keys, f, k);
      SumTake(keys, g, k);
      SumAtMost(keys - {k}, f, g);
    }
  }

  lemma {:induction false} SumPlus<K(!new)>(keys: set<K>, f: K -> real, g: K -> real, h: K -> real)
    requires forall k :: k in keys ==> h(k) == f(k) + g(k)
    ensures Sum(keys, h) == Sum(keys, f) + Sum(keys, g)
    decreases keys
  {
    if keys != {} {
      var k :| k in keys;
      SumTake(keys, f, k);
      SumTake(keys, g, k);
      SumTake(keys, h, k);
      SumPlus(keys - {k}, f, g, h);
    }
  }

  function Scale(c: real, x: real): real
  {
    c * x
  }

  lemma {:induction false} SumScaled<K(!new)>(keys: set<K>, f: K -> real, c: real, h: K -> real)
    requires forall k :: k in keys ==> h(k) == Scale(c, f(k))
    ensures Sum(keys, h) == Scale(c, Sum(keys, f))
    decreases keys
  {
    Distribute(c, 0.0, 0.0);
    hide Scale;
    if keys != {} {
      var k :| k in keys;
      SumTake(keys, f, k);
      SumTake(keys, h, k);
      SumScaled(keys - {k}, f, c, h);
      Distribute(c, f(k), Sum(keys - {k}, f));
    }
  }

  lemma Distribute(c: real, x: real, y: real)
    ensures Scale(c, x + y) == Scale(c, x) + Scale(c, y)
    ensures Scale(c, 0.0) == 0.0
  {
  }

  lemma {:induction false} SumZero<K(!new)>(keys: set<K>, f: K -> real)
    requires forall k :: k in keys ==> f(k) == 0.0
    ensures Sum(keys, f) == 0.0
    decreases keys
  {
    if keys != {} {
      var k :| k in keys;
      SumTake(keys, f, k);
      SumZero(keys - {k}, f);
    }
  }

  /** Keys whose value is zero may be dropped. */
  lemma {:induction false} SumOverSupport<K(!new)>(some: set<K>, all: set<K>, f: K -> real)
    requires some <= all
    requires forall k :: k in all - some ==> f(k) == 0.0
    ensures Sum(some, f) == Sum(all, f)
    decreases all - some
  {
    if all - some == {} {
      assert forall k :: k in all ==> k in some by {
        forall k | k in all ensures k in some {
          assert k !in all - some;
        }
      }
      assert some == all;
    } else {
      var k :| k in all - some;
      SumTake(all, f, k);
      SumOverSupport(some, all - {k}, f);
    }
  }

  /** Changing one key's value changes the sum by the difference. */
  lemma {:induction false} SumChangeOne<K(!new)>(keys: set<K>, f: K -> real, g: K -> real, k: K)
    requires k in keys
    requires forall x :: x in keys && x != k ==> f(x) == g(x)
    ensures Sum(keys, g) - Sum(keys, f) == g(k) - f(k)
  {
    SumTake(keys, f, k);
    SumTake(keys, g, k);
    SumCongruent(keys - {k}, f, g);
  }

  lemma SumNonNegative<K(!new)>(keys: set<K>, f: K -> real)
    requires forall k :: k in keys ==> f(k) >= 0.0
    ensures Sum(keys, f) >= 0.0
  {
    SumZero(keys, (k: K) => 0.0);
    SumAtMost(keys, (k: K) => 0.0, f);
  }

  /** One term of a non-negative sum is at most the sum. */
  lemma SumTermAtMost<K(!new)>(keys: set<K>, f: K -> real, k: K)
    requires k in keys
    requires forall x :: x in keys ==> f(x) >= 0.0
    ensures f(k) <= Sum(keys, f)
  {
    SumTake(keys, f, k);
    SumNonNegative(keys - {k}, f);
  }

  function Image<K, X>(keys: set<K>, at: K -> X): set<X>
  {
    set k | k in keys :: at(k)
  }

  /** Where each key has a place of its own, the sum over the places is at least the sum over the keys. */
  lemma {:induction false} SumInto<K(!new), X(!new)>(keys: set<K>, f: K -> real, at: K -> X, g: X -> real)
    requires forall j, k :: j in keys && k in keys && at(j) == at(k) ==> j == k
    requires forall k :: k in keys ==> f(k) <= g(at(k))
    ensures Sum(keys, f) <= Sum(Image(keys, at), g)
    decreases keys
  {
    if keys != {} {
      var k :| k in keys;
      SumTake(keys, f, k);
      SumInto(keys - {k}, f, at, g);
      assert Image(keys, at) - {at(k)} == Image(keys - {k}, at);
      SumTake(Image(keys, at), g, at(k));
    }
  }
}
