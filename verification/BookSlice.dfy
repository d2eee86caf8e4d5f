/** What one book reads of the ticks all books share (sn89_signals/agent_books_io.py, PairIndex and book_ticks). */
module BookSlice {
  import opened AgentBooks
  import opened TickSimulation
  import opened TickThinning
  import opened TickShards
  import opened ThinRange

  /** bisect.bisect_right: how many leading entries are at most x. */
  method BisectRight(times: seq<int>, x: int) returns (k: nat)
    requires forall i, j :: 0 <= i < j < |times| ==> times[i] <= times[j]
    ensures k <= |times| && (forall i :: 0 <= i < k ==> times[i] <= x) && (forall i :: k <= i < |times| ==> x < times[i])
  {
    var lo, hi := 0, |times|;
    while lo < hi
      invariant 0 <= lo <= hi <= |times|
      invariant forall i :: 0 <= i < lo ==> times[i] <= x
      invariant forall i :: hi <= i < |times| ==> x < times[i]
    {
      var mid := (lo + hi) / 2;
      if x < times[mid] { hi := mid; } else { lo := mid + 1; }
    }
    k := lo;
  }

  /** `ix` lists the indices below `n` of the pair's ticks in order. */
  ghost predicate Lists(ticks: seq<Tick>, n: nat, p: Pair, ix: seq<nat>)
    requires n <= |ticks|
  {
    && (forall k :: 0 <= k < |ix| ==> ix[k] < n && ticks[ix[k]].a == p)
    && (forall k, l :: 0 <= k < l < |ix| ==> ix[k] < ix[l])
    && (forall m :: 0 <= m < n && ticks[m].a == p ==> m in ix)
  }

  lemma ListsNext(ticks: seq<Tick>, n: nat, p: Pair, ix: seq<nat>)
    requires n < |ticks| && Lists(ticks, n, p, ix)
    ensures Lists(ticks, n + 1, p, if ticks[n].a == p then ix + [n] else ix)
  {
    if ticks[n].a == p {
      var after := ix + [n];
      assert after[|ix|] == n && forall k :: 0 <= k < |ix| ==> after[k] == ix[k];
      forall k, l | 0 <= k < l < |after| ensures after[k] < after[l] {
        if l < |ix| {
          assert ix[k] < ix[l];
        } else {
          assert ix[k] < n;
        }
      }
      forall m | 0 <= m < n + 1 && ticks[m].a == p ensures m in after {
        assert m in ix || m == n;
      }
    }
  }

  /** `times` are the times of the listed ticks. */
  ghost predicate ListsTimes(ticks: seq<Tick>, n: nat, p: Pair, ix: seq<nat>, times: seq<int>)
    requires n <= |ticks|
  {
    Lists(ticks, n, p, ix) && |times| == |ix| && forall k :: 0 <= k < |ix| ==> times[k] == ticks[ix[k]].t
  }

  lemma ListedTimesSorted(ticks: seq<Tick>, p: Pair, ix: seq<nat>, times: seq<int>)
    requires TicksSorted(ticks) && ListsTimes(ticks, |ticks|, p, ix, times)
    ensures forall k, l :: 0 <= k < l < |times| ==> times[k] <= times[l]
  {
  }

  lemma LastTimeIsAt(ticks: seq<Tick>, p: Pair, ix: seq<nat>, times: seq<int>, tt: int, a: nat, j: nat)
    requires TicksSorted(ticks) && ListsTimes(ticks, |ticks|, p, ix, times) && a <= |times| && j < |ticks| && ticks[j].a == p
    requires forall k :: 0 <= k < a ==> times[k] < tt
    requires forall k :: a <= k < |times| ==> tt <= times[k]
    requires AtLastTimeBefore(ticks, j, tt)
    ensures a > 0 && ticks[j].t == times[a - 1]
  {
    ListedTimesSorted(ticks, p, ix, times);
    assert j in ix;
    var m :| 0 <= m < |ix| && ix[m] == j;
    assert times[m] == ticks[j].t;
    assert m < a;
    assert ticks[ix[a - 1]].a == p && ticks[ix[a - 1]].t == times[a - 1] < tt;
  }

  lemma AtIsLastTime(ticks: seq<Tick>, p: Pair, ix: seq<nat>, times: seq<int>, tt: int, a: nat, j: nat)
    requires TicksSorted(ticks) && ListsTimes(ticks, |ticks|, p, ix, times) && a <= |times| && j < |ticks| && ticks[j].a == p
    requires forall k :: 0 <= k < a ==> times[k] < tt
    requires forall k :: a <= k < |times| ==> tt <= times[k]
    requires a > 0 && ticks[j].t == times[a - 1]
    ensures AtLastTimeBefore(ticks, j, tt)
  {
    ListedTimesSorted(ticks, p, ix, times);
    forall k | 0 <= k < |ticks| && ticks[k].a == p && ticks[k].t < tt ensures ticks[k].t <= ticks[j].t {
      assert k in ix;
      var l :| 0 <= l < |ix| && ix[l] == k;
      assert times[l] == ticks[k].t;
      assert l < a;
    }
  }

  lemma FirstByBisect(ticks: seq<Tick>, p: Pair, ix: seq<nat>, times: seq<int>, e: int, k: nat)
    requires ListsTimes(ticks, |ticks|, p, ix, times) && k < |times| && e <= times[k]
    requires forall l :: 0 <= l < k ==> times[l] < e
    ensures FirstSince(ticks, ix[k], e) && ticks[ix[k]].a == p
  {
    forall n | 0 <= n < ix[k] && ticks[n].a == p ensures ticks[n].t < e {
      assert n in ix;
      var m :| 0 <= m < |ix| && ix[m] == n;
      assert times[m] == ticks[n].t;
    }
  }

  lemma OnlyFirstByBisect(ticks: seq<Tick>, p: Pair, ix: seq<nat>, times: seq<int>, e: int, k: nat, n: nat)
    requires ListsTimes(ticks, |ticks|, p, ix, times) && k <= |times|
    requires forall l :: 0 <= l < k ==> times[l] < e
    requires forall l :: k <= l < |times| ==> e <= times[l]
    requires n < |ticks| && ticks[n].a == p && FirstSince(ticks, n, e)
    ensures k < |times| && ticks[n].t == times[k]
  {
    assert n in ix;
    var m :| 0 <= m < |ix| && ix[m] == n;
    assert times[m] == ticks[n].t;
    assert k <= m;
    assert ticks[ix[k]].a == p && times[k] == ticks[ix[k]].t;
  }

  ghost predicate Indexed(ticks: seq<Tick>, n: nat, t: map<Pair, seq<int>>, i: map<Pair, seq<nat>>)
    requires n <= |ticks|
  {
    && t.Keys == i.Keys
    && (forall p :: p in i ==> i[p] != [] && ListsTimes(ticks, n, p, i[p], t[p]))
    && (forall m :: 0 <= m < n ==> ticks[m].a in i)
  }

  function Listed<V>(m: map<Pair, seq<V>>, p: Pair): seq<V>
  {
    if p in m then m[p] else []
  }

  lemma IndexedNext(ticks: seq<Tick>, n: nat, t: map<Pair, seq<int>>, i: map<Pair, seq<nat>>)
    requires n < |ticks| && Indexed(ticks, n, t, i)
    ensures var p := ticks[n].a;
            Indexed(ticks, n + 1, t[p := Listed(t, p) + [ticks[n].t]], i[p := Listed(i, p) + [n]])
  {
    hide Lists;
    var p := ticks[n].a;
    var t', i' := t[p := Listed(t, p) + [ticks[n].t]], i[p := Listed(i, p) + [n]];
    forall x | x in i' ensures i'[x] != [] && ListsTimes(ticks, n + 1, x, i'[x], t'[x]) {
      if x !in i {
        NothingListed(ticks, n, x, i);
      }
      assert Lists(ticks, n, x, Listed(i, x));
      ListsNext(ticks, n, x, Listed(i, x));
      ListedAreWithin(ticks, n, x, Listed(i, x));
    }
  }

  lemma ListedAreWithin(ticks: seq<Tick>, n: nat, p: Pair, ix: seq<nat>)
    requires n <= |ticks| && Lists(ticks, n, p, ix)
    ensures forall k :: 0 <= k < |ix| ==> ix[k] < n
  {
  }

  lemma NothingListed(ticks: seq<Tick>, n: nat, p: Pair, i: map<Pair, seq<nat>>)
    requires n <= |ticks| && p !in i && forall m :: 0 <= m < n ==> ticks[m].a in i
    ensures Lists(ticks, n, p, [])
  {
  }

  lemma NothingIndexed(ticks: seq<Tick>)
    ensures Indexed(ticks, 0, map[], map[])
  {
  }

  /** Per-pair times and indices over a time-sorted tick list. */
  class PairIndex {
    const ticks: seq<Tick>
    var t: map<Pair, seq<int>>
    var i: map<Pair, seq<nat>>

    ghost predicate Valid()
      reads this
    {
      TicksSorted(ticks) && Indexed(ticks, |ticks|, t, i)
    }

    constructor (ticks: seq<Tick>)
      requires TicksSorted(ticks)
      ensures Valid() && this.ticks == ticks
    {
      hide Indexed;
      this.ticks := ticks;
      this.t := map[];
      this.i := map[];
      new;
      NothingIndexed(ticks);
      for n := 0 to |ticks|
        invariant this.ticks == ticks
        invariant Indexed(ticks, n, t, i)
      {
        var p := ticks[n].a;
        IndexedNext(ticks, n, t, i);
        t := t[p := Listed(t, p) + [ticks[n].t]];
        i := i[p := Listed(i, p) + [n]];
      }
    }

    /** Every tick of `p` at time `tt`. */
    method AddAt(p: Pair, tt: int, sel0: set<nat>) returns (sel: set<nat>)
      requires Valid() && p in t
      ensures forall j :: j in sel <==> j in sel0 || (0 <= j < |ticks| && ticks[j].a == p && ticks[j].t == tt)
    {
      ListedTimesSorted(ticks, p, i[p], t[p]);
      var a := BisectLeft(t[p], tt);
      var b := BisectRight(t[p], tt);
      var hit := set k | a <= k < b :: i[p][k];
      sel := sel0 + hit;
      forall j ensures j in hit <==> (0 <= j < |ticks| && ticks[j].a == p && ticks[j].t == tt) {
        if 0 <= j < |ticks| && ticks[j].a == p && ticks[j].t == tt {
          assert j in i[p];
          var k :| 0 <= k < |i[p]| && i[p][k] == j;
          assert t[p][k] == tt;
        }
      }
    }

    /** Every tick of `p` at its last time before `tt`. */
    method AddBefore(p: Pair, tt: int, sel0: set<nat>) returns (sel: set<nat>)
      requires Valid() && p in t
      ensures forall j :: j in sel <==> j in sel0 || (0 <= j < |ticks| && ticks[j].a == p && AtLastTimeBefore(ticks, j, tt))
    {
      ListedTimesSorted(ticks, p, i[p], t[p]);
      var a := BisectLeft(t[p], tt);
      sel := sel0;
      if a > 0 {
        sel := AddAt(p, t[p][a - 1], sel0);
      }
      forall j | 0 <= j < |ticks| && ticks[j].a == p
        ensures AtLastTimeBefore(ticks, j, tt) <==> (a > 0 && ticks[j].t == t[p][a - 1])
      {
        if AtLastTimeBefore(ticks, j, tt) {
          LastTimeIsAt(ticks, p, i[p], t[p], tt, a, j);
        }
        if a > 0 && ticks[j].t == t[p][a - 1] {
          AtIsLastTime(ticks, p, i[p], t[p], tt, a, j);
        }
      }
    }

    /** The time of the pair's first tick at or after `e`, when it is not past `end`. */
    method FirstTimeAt(p: Pair, e: int, end: int, events0: set<int>) returns (events: set<int>)
      requires Valid() && p in t
      ensures forall f :: f in events <==>
                (f in events0 ||
                 (f <= end && exists n :: 0 <= n < |ticks| && ticks[n].a == p && ticks[n].t == f
                                          && FirstSince(ticks, n, e)))
    {
      ListedTimesSorted(ticks, p, i[p], t[p]);
      var k := BisectLeft(t[p], e);
      events := events0;
      if k < |t[p]| && t[p][k] <= end {
        events := events + {t[p][k]};
      }
      if k < |t[p]| {
        FirstByBisect(ticks, p, i[p], t[p], e, k);
      }
      forall n | 0 <= n < |ticks| && ticks[n].a == p && FirstSince(ticks, n, e)
        ensures k < |t[p]| && ticks[n].t == t[p][k]
      {
        OnlyFirstByBisect(ticks, p, i[p], t[p], e, k, n);
      }
    }
  }

  // ---------------------------------------------------------------- book_ticks

  /** Add the first eligible tick times of one receipt's pairs. */
  method AddFillTimes(delay: nat, r: Receipt, idx: PairIndex, end: int, events0: set<int>) returns (events: set<int>)
    requires idx.Valid()
    ensures forall f :: f in events <==> f in events0 || MeetsAt(delay, r, idx.ticks, end, InOrder(Keys(r)), f)
  {
    hide FirstSince, InOrder, MeetsAt;
    events := events0;
    var keys := InOrder(Keys(r));
    assert keys[..0] == [];
    forall f ensures !MeetsAt(delay, r, idx.ticks, end, [], f) {
      MeetsNone(delay, r, idx.ticks, end, f);
    }
    for m := 0 to |keys|
      invariant forall f :: f in events <==> f in events0 || MeetsAt(delay, r, idx.ticks, end, keys[..m], f)
    {
      assert keys[..m + 1] == keys[..m] + [keys[m]];
      forall f ensures MeetsAt(delay, r, idx.ticks, end, keys[..m + 1], f)
                       <==> (MeetsAt(delay, r, idx.ticks, end, keys[..m], f) ||
                             (f <= end && exists n :: 0 <= n < |idx.ticks| && idx.ticks[n].a == keys[m]
                                                       && idx.ticks[n].t == f && FirstSince(idx.ticks, n, r.tRecv + delay)))
      {
        MeetsOneMore(delay, r, idx.ticks, end, keys[..m], keys[m], f);
      }
      if keys[m] in idx.t {
        events := idx.FirstTimeAt(keys[m], r.tRecv + delay, end, events);
      }
    }
    assert keys[..|keys|] == keys;
  }

  lemma MeetsNone(delay: nat, r: Receipt, tk: seq<Tick>, end: int, f: int)
    ensures !MeetsAt(delay, r, tk, end, [], f)
  {
  }

  /** The fill times of a book's receipts. */
  method FillTimes(delay: nat, rs: seq<Receipt>, idx: PairIndex, end: int) returns (events: set<int>)
    requires idx.Valid()
    ensures forall f :: f in events <==> FillTime(delay, rs, idx.ticks, end, f)
  {
    hide MeetsAt;
    events := {};
    for n := 0 to |rs|
      invariant forall f :: f in events <==> FillTime(delay, rs[..n], idx.ticks, end, f)
    {
      hide FillTime;
      forall f ensures FillTime(delay, rs[..n + 1], idx.ticks, end, f)
                       <==> FillTime(delay, rs[..n], idx.ticks, end, f)
                            || MeetsAt(delay, rs[n], idx.ticks, end, InOrder(Keys(rs[n])), f)
      {
        FillTimeOneMore(delay, rs, n, idx.ticks, end, InOrder(Keys(rs[n])), f);
      }
      events := AddFillTimes(delay, rs[n], idx, end, events);
    }
    assert rs[..|rs|] == rs;
  }

  /** One of `keys` has its first tick since the receipt's eligible time at time `f`. */
  ghost predicate MeetsAt(delay: nat, r: Receipt, tk: seq<Tick>, end: int, keys: seq<Pair>, f: int)
  {
    f <= end && exists i :: 0 <= i < |tk| && tk[i].t == f && tk[i].a in keys && FirstSince(tk, i, r.tRecv + delay)
  }

  lemma MeetsOneMore(delay: nat, r: Receipt, tk: seq<Tick>, end: int, keys: seq<Pair>, p: Pair, f: int)
    ensures MeetsAt(delay, r, tk, end, keys + [p], f)
            <==> (MeetsAt(delay, r, tk, end, keys, f) ||
                  (f <= end && exists n :: 0 <= n < |tk| && tk[n].a == p && tk[n].t == f
                                            && FirstSince(tk, n, r.tRecv + delay)))
  {
    hide FirstSince;
  }

  lemma FillTimeOneMore(delay: nat, rs: seq<Receipt>, n: nat, tk: seq<Tick>, end: int, keys: seq<Pair>, f: int)
    requires n < |rs| && forall p :: p in keys <==> p in Keys(rs[n])
    ensures FillTime(delay, rs[..n + 1], tk, end, f)
            <==> FillTime(delay, rs[..n], tk, end, f) || MeetsAt(delay, rs[n], tk, end, keys, f)
  {
    hide FirstSince, Keys;
    assert rs[..n + 1] == rs[..n] + [rs[n]];
    assert rs[n] in rs[..n + 1];
    assert forall r :: r in rs[..n] ==> r in rs[..n + 1];
    assert forall r :: r in rs[..n + 1] ==> r in rs[..n] || r == rs[n];
  }

  method AddBeforeAll(idx: PairIndex, pairs: seq<Pair>, tt: int, sel0: set<nat>) returns (sel: set<nat>)
    requires idx.Valid() && forall p :: p in pairs ==> p in idx.t
    ensures forall j :: j in sel <==> j in sel0 || (0 <= j < |idx.ticks| && idx.ticks[j].a in pairs && AtLastTimeBefore(idx.ticks, j, tt))
  {
    sel := sel0;
    for n := 0 to |pairs|
      invariant forall j :: j in sel <==>
                  (j in sel0 ||
                   (0 <= j < |idx.ticks| && idx.ticks[j].a in pairs[..n] && AtLastTimeBefore(idx.ticks, j, tt)))
    {
      assert pairs[..n + 1] == pairs[..n] + [pairs[n]];
      sel := idx.AddBefore(pairs[n], tt, sel);
    }
    assert pairs[..|pairs|] == pairs;
  }

  method AddAtAll(idx: PairIndex, pairs: seq<Pair>, tt: int, sel0: set<nat>) returns (sel: set<nat>)
    requires idx.Valid() && forall p :: p in pairs ==> p in idx.t
    ensures forall j :: j in sel <==> j in sel0 || (0 <= j < |idx.ticks| && idx.ticks[j].a in pairs && idx.ticks[j].t == tt)
  {
    sel := sel0;
    for n := 0 to |pairs|
      invariant forall j :: j in sel <==>
                  (j in sel0 || (0 <= j < |idx.ticks| && idx.ticks[j].a in pairs[..n] && idx.ticks[j].t == tt))
    {
      assert pairs[..n + 1] == pairs[..n] + [pairs[n]];
      sel := idx.AddAt(pairs[n], tt, sel);
    }
    assert pairs[..|pairs|] == pairs;
  }

  /** What the loops over fill times, day ends and the end have selected so far. */
  ghost predicate Chosen(tk: seq<Tick>, pairs: seq<Pair>, fills: set<int>, marks: iset<int>, sel: set<nat>)
  {
    forall j :: j in sel <==>
      (0 <= j < |tk| && tk[j].a in pairs && (tk[j].t in fills || exists t :: t in marks && AtLastTimeBefore(tk, j, t)))
  }

  lemma ChosenMore(tk: seq<Tick>, pairs: seq<Pair>, fills: set<int>, marks: iset<int>, sel0: set<nat>, tt: int, sel: set<nat>)
    requires Chosen(tk, pairs, fills, marks, sel0)
    requires forall j :: j in sel <==> j in sel0 || (0 <= j < |tk| && tk[j].a in pairs && AtLastTimeBefore(tk, j, tt))
    ensures Chosen(tk, pairs, fills, marks + iset{tt}, sel)
  {
    hide AtLastTimeBefore;
    forall j | 0 <= j < |tk| ensures (exists t :: t in marks + iset{tt} && AtLastTimeBefore(tk, j, t))
                                     <==> (exists t :: t in marks && AtLastTimeBefore(tk, j, t)) || AtLastTimeBefore(tk, j, tt)
    {
      assert tt in marks + iset{tt};
    }
  }

  lemma ChosenFill(tk: seq<Tick>, pairs: seq<Pair>, fills: set<int>, marks: iset<int>, sel0: set<nat>, tt: int, sel: set<nat>)
    requires Chosen(tk, pairs, fills, marks, sel0)
    requires forall j :: j in sel <==> j in sel0 || (0 <= j < |tk| && tk[j].a in pairs && tk[j].t == tt)
    ensures Chosen(tk, pairs, fills + {tt}, marks, sel)
  {
    hide AtLastTimeBefore;
  }

  lemma ChosenIsSelected(env: Env, rs: seq<Receipt>, tk: seq<Tick>, end: int, pairs: seq<Pair>, fills: set<int>,
                         marks: iset<int>, sel: set<nat>)
    requires Chosen(tk, pairs, fills, marks, sel)
    requires forall p :: p in pairs <==> TouchedBy(env, rs, p) && exists n :: 0 <= n < |tk| && tk[n].a == p
    requires forall f :: f in fills <==> FillTime(env.rules.fillDelay, rs, tk, end, f)
    requires forall t :: t in marks <==> MarkTime(env, rs, tk, end, t)
    ensures sel == SelectedIndices(env, rs, tk, end)
  {
    hide AtLastTimeBefore, TouchedBy, FillTime, MarkTime;
    forall j: nat ensures j in sel <==> j in SelectedIndices(env, rs, tk, end) {
      if j < |tk| {
        assert tk[j].a == tk[j].a;
        assert (exists t :: t in marks && AtLastTimeBefore(tk, j, t))
               <==> (exists t :: MarkTime(env, rs, tk, end, t) && AtLastTimeBefore(tk, j, t));
      }
    }
    assert forall j :: j in SelectedIndices(env, rs, tk, end) ==> 0 <= j;
  }

  lemma SelectedByEnd(env: Env, rs: seq<Receipt>, tk: seq<Tick>, end: int, j: int)
    requires j in SelectedIndices(env, rs, tk, end)
    ensures 0 <= j < |tk| && tk[j].t <= end
  {
  }

  method TouchedPairs(env: Env, rs: seq<Receipt>, idx: PairIndex) returns (pairs: seq<Pair>)
    requires idx.Valid()
    ensures forall p :: p in pairs ==> p in idx.t
    ensures forall p :: p in pairs <==> TouchedBy(env, rs, p) && exists n :: 0 <= n < |idx.ticks| && idx.ticks[n].a == p
  {
    var s := set r, p | r in rs && p in Keys(r) && p in env.universe && p in idx.t :: p;
    pairs := InOrder(s);
    forall p ensures p in idx.t <==> exists n :: 0 <= n < |idx.ticks| && idx.ticks[n].a == p {
      if p in idx.t {
        assert idx.i[p] != [];
        assert idx.ticks[idx.i[p][0]].a == p;
      }
    }
  }

  /** At and before every fill time. */
  method MarkFills(idx: PairIndex, pairs: seq<Pair>, events: set<int>) returns (sel: set<nat>)
    requires idx.Valid() && forall p :: p in pairs ==> p in idx.t
    ensures Chosen(idx.ticks, pairs, events, (iset f | f in events), sel)
  {
    hide AtLastTimeBefore, Chosen;
    sel := {};
    ghost var marks: iset<int> := iset{};
    var todo := events;
    assert events - todo == {};
    NothingChosen(idx.ticks, pairs);
    while todo != {}
      invariant todo <= events
      invariant Chosen(idx.ticks, pairs, events - todo, marks, sel)
      invariant marks == iset f | f in events && f !in todo
      decreases todo
    {
      SomeElement(todo);
      var f :| f in todo;
      ghost var done := events - todo;
      ghost var sel0 := sel;
      sel := AddAtAll(idx, pairs, f, sel);
      ChosenFill(idx.ticks, pairs, done, marks, sel0, f, sel);
      ghost var sel1 := sel;
      sel := AddBeforeAll(idx, pairs, f, sel);
      ChosenMore(idx.ticks, pairs, done + {f}, marks, sel1, f, sel);
      marks := marks + iset{f};
      todo := todo - {f};
      assert events - todo == done + {f};
      assert marks == iset x | x in events && x !in todo;
    }
    assert events - todo == events;
    assert marks == iset f | f in events;
  }

  ghost predicate DayEndBefore(env: Env, end: int, t: int, b: int)
  {
    t % DAY_MS == 0 && DayStart(env.start) < t < b && t <= end
  }

  /** Before every day end. */
  method MarkDayEnds(env: Env, idx: PairIndex, pairs: seq<Pair>, end: int, ghost events: set<int>, sel0: set<nat>)
    returns (sel: set<nat>)
    requires idx.Valid() && forall p :: p in pairs ==> p in idx.t
    requires Chosen(idx.ticks, pairs, events, (iset f | f in events), sel0)
    ensures Chosen(idx.ticks, pairs, events, (iset t | t in events || (t != end + 1 && ReadTime(env, end, t))), sel)
  {
    hide AtLastTimeBefore, Chosen, DayStart;
    sel := sel0;
    var b := DayStart(env.start) + DAY_MS;
    DayStartOnGrid(env.start);
    NoDayEndYet(env, end);
    ghost var marks: iset<int> := iset t | t in events || DayEndBefore(env, end, t, b);
    assert marks == iset f | f in events;
    while b <= end
      invariant b % DAY_MS == 0 && DayStart(env.start) < b
      invariant Chosen(idx.ticks, pairs, events, marks, sel)
      invariant marks == iset t | t in events || DayEndBefore(env, end, t, b)
      decreases end - b
    {
      ghost var before := sel;
      sel := AddBeforeAll(idx, pairs, b, sel);
      ChosenMore(idx.ticks, pairs, events, marks, before, b, sel);
      marks := marks + iset{b};
      NextDayEnd(env, end, b);
      b := b + DAY_MS;
      assert marks == iset t | t in events || DayEndBefore(env, end, t, b);
    }
    assert marks == iset t | t in events || (t != end + 1 && ReadTime(env, end, t));
  }

  lemma NoDayEndYet(env: Env, end: int)
    ensures var b := DayStart(env.start) + DAY_MS; forall t :: !DayEndBefore(env, end, t, b)
  {
  }

  lemma NextDayEnd(env: Env, end: int, b: int)
    requires b % DAY_MS == 0 && DayStart(env.start) < b <= end
    ensures forall t :: DayEndBefore(env, end, t, b + DAY_MS) <==> DayEndBefore(env, end, t, b) || t == b
  {
    NextMidnight(b);
  }

  /** Selects the ticks a book needs, in stream order. */
  method BookTicks(env: Env, rs: seq<Receipt>, idx: PairIndex, end: int) returns (out: seq<Tick>)
    requires idx.Valid()
    ensures out == SliceStream(env, rs, idx.ticks, end)
  {
    hide AtLastTimeBefore, TouchedBy, FillTime, Chosen, SelectedIndices, ReadTime;
    var pairs := TouchedPairs(env, rs, idx);
    var events := FillTimes(env.rules.fillDelay, rs, idx, end);
    var sel := MarkFills(idx, pairs, events);
    sel := MarkDayEnds(env, idx, pairs, end, events, sel);
    ghost var marks := iset t | t in events || (t != end + 1 && ReadTime(env, end, t));
    ghost var sel0 := sel;
    sel := AddBeforeAll(idx, pairs, end + 1, sel);
    ChosenMore(idx.ticks, pairs, events, marks, sel0, end + 1, sel);
    EndIsReadTime(env, end);
    ChosenIsSelected(env, rs, idx.ticks, end, pairs, events, marks + iset{end + 1}, sel);
    out := PickUntil(idx, sel, end, env, rs);
  }

  lemma EndIsReadTime(env: Env, end: int)
    ensures ReadTime(env, end, end + 1)
  {
  }

  lemma NothingChosen(tk: seq<Tick>, pairs: seq<Pair>)
    ensures Chosen(tk, pairs, {}, iset{}, {})
  {
  }

  lemma SomeElement(s: set<int>)
    requires s != {}
    ensures exists f :: f in s
  {
    if forall f :: f !in s {
      assert false;
    }
  }

  lemma NextMidnight(b: int)
    requires b % DAY_MS == 0
    ensures forall t :: t % DAY_MS == 0 && b < t ==> b + DAY_MS <= t
  {
  }

  method PickUntil(idx: PairIndex, sel: set<nat>, end: int, ghost env: Env, ghost rs: seq<Receipt>) returns (out: seq<Tick>)
    requires idx.Valid() && sel == SelectedIndices(env, rs, idx.ticks, end)
    ensures out == SliceStream(env, rs, idx.ticks, end)
  {
    hide SelectedIndices, InOrder, Picked;
    var tk := idx.ticks;
    forall j | j in sel ensures j < |tk| && tk[j].t <= end {
      SelectedByEnd(env, rs, tk, end, j);
    }
    var o := InOrder(sel);
    InOrderWithin(sel, |tk|);
    out := [];
    assert o[0..] == o;
    for n := 0 to |o|
      invariant out + Picked(tk, o[n..]) == Picked(tk, o)
    {
      assert o[n] in o;
      PickedStep(tk, o, n);
      if tk[o[n]].t <= end {
        out := out + [tk[o[n]]];
      }
    }
    PickedNone(tk, o);
    PickInOrder(tk, sel, 0);
  }
}
