/** The union thin of a range of days (sn89_signals/agent_books_io.py, load_thin_range). */
module ThinRange {
  import opened Wrappers
  import opened AgentBooks
  import opened Sorting
  import opened TickSimulation
  import opened TickThinning
  import opened TickShards
  import opened ThinPass

  // ---------------------------------------------------------------- what depends on one day only

  lemma DueLocally(delay: nat, some: seq<Receipt>, all: seq<Receipt>, p: Pair, e: int, lo: int, hi: int)
    requires forall r :: r in some ==> r in all
    requires forall r :: r in all && lo <= r.tRecv + delay < hi ==> r in some
    requires lo <= e < hi
    ensures Due(delay, some, p, e) <==> Due(delay, all, p, e)
  {
  }

  /** The thin of a day reads only the receipts that become eligible in it. */
  lemma ThinStreamLocal(delay: nat, some: seq<Receipt>, all: seq<Receipt>, tk: seq<Tick>, day: int)
    requires forall r :: r in some ==> r in all
    requires forall r :: r in all && day <= r.tRecv + delay < day + DAY_MS ==> r in some
    requires forall k :: 0 <= k < |tk| ==> DayStart(tk[k].t) == day
    ensures ThinStream(delay, some, tk) == ThinStream(delay, all, tk)
  {
    hide Due, FirstOfDay, FirstSince, DayStart;
    forall i | 0 <= i < |tk| ensures FillCandidate(delay, some, tk, i) <==> FillCandidate(delay, all, tk, i) {
      forall e | day <= e && FirstSince(tk, i, e) ensures Due(delay, some, tk[i].a, e) <==> Due(delay, all, tk[i].a, e) {
        FirstSinceBounds(tk, i, e, day);
        DueLocally(delay, some, all, tk[i].a, e, day, day + DAY_MS);
      }
    }
    SameCandidatesSameWanted(delay, some, all, tk);
  }

  lemma FirstSinceBounds(tk: seq<Tick>, i: int, e: int, day: int)
    requires 0 <= i < |tk| && DayStart(tk[i].t) == day && FirstSince(tk, i, e)
    ensures e < day + DAY_MS
  {
  }

  lemma SameCandidatesSameWanted(delay: nat, some: seq<Receipt>, all: seq<Receipt>, tk: seq<Tick>)
    requires forall i :: 0 <= i < |tk| ==> (FillCandidate(delay, some, tk, i) <==> FillCandidate(delay, all, tk, i))
    ensures ThinStream(delay, some, tk) == ThinStream(delay, all, tk)
  {
    hide FillCandidate;
    forall j | 0 <= j < |tk| ensures Wanted(delay, some, tk, j) <==> Wanted(delay, all, tk, j) {
      forall i ensures MarksGroup(delay, some, tk, j, i) <==> MarksGroup(delay, all, tk, j, i) {
      }
    }
    assert WantedIndices(delay, some, tk) == WantedIndices(delay, all, tk);
  }

  // ---------------------------------------------------------------- a day and the days after it

  /** Every tick of `a` is in the day, every tick of `b` after it. */
  ghost predicate DayThenLater(a: seq<Tick>, b: seq<Tick>, day: int)
  {
    (forall k :: 0 <= k < |a| ==> DayStart(a[k].t) == day) && (forall k :: 0 <= k < |b| ==> day < DayStart(b[k].t))
  }

  lemma LaterDayLaterTime(t: int, u: int)
    requires DayStart(t) < DayStart(u)
    ensures t < DayStart(u) <= u
  {
  }

  lemma CandidateInDay(delay: nat, rs: seq<Receipt>, a: seq<Tick>, b: seq<Tick>, day: int, i: int)
    requires DayThenLater(a, b, day)
    ensures 0 <= i < |a| ==> (FillCandidate(delay, rs, a + b, i) <==> FillCandidate(delay, rs, a, i))
    ensures |a| <= i < |a + b| ==> (FillCandidate(delay, rs, a + b, i) <==> FillCandidate(delay, rs, b, i - |a|))
  {
    hide Due, DayStart;
    var all := a + b;
    assert forall k :: 0 <= k < |a| ==> all[k] == a[k];
    assert forall k :: |a| <= k < |all| ==> all[k] == b[k - |a|];
    if 0 <= i < |a| {
      forall e ensures FirstSince(all, i, e) <==> FirstSince(a, i, e) {
      }
    } else if |a| <= i < |all| {
      assert FirstOfDay(all, i) <==> FirstOfDay(b, i - |a|) by {
        forall k | 0 <= k < |b| ensures all[|a| + k] == b[k] {
        }
      }
      forall e | DayStart(all[i].t) <= e ensures FirstSince(all, i, e) <==> FirstSince(b, i - |a|, e) {
        forall k | 0 <= k < |a| ensures all[k].t < e {
          LaterDayLaterTime(all[k].t, all[i].t);
        }
        forall k | 0 <= k < |b| ensures all[|a| + k] == b[k] {
        }
      }
    }
  }

  lemma WantedInDay(delay: nat, rs: seq<Receipt>, a: seq<Tick>, b: seq<Tick>, day: int, j: int)
    requires DayThenLater(a, b, day) && 0 <= j < |a|
    ensures Wanted(delay, rs, a + b, j) <==> Wanted(delay, rs, a, j)
  {
    hide FillCandidate, DayStart;
    var all := a + b;
    assert forall k :: 0 <= k < |a| ==> all[k] == a[k];
    assert forall k :: |a| <= k < |all| ==> all[k] == b[k - |a|];
    assert LastOfDay(all, j) <==> LastOfDay(a, j);
    if i :| 0 <= i < |all| && all[i].t == all[j].t && FillCandidate(delay, rs, all, i) {
      assert i < |a|;
      CandidateInDay(delay, rs, a, b, day, i);
      assert a[i].t == a[j].t;
    }
    if i :| 0 <= i < |a| && a[i].t == a[j].t && FillCandidate(delay, rs, a, i) {
      CandidateInDay(delay, rs, a, b, day, i);
      assert all[i].t == all[j].t;
    }
    forall i ensures MarksGroup(delay, rs, all, j, i) <==> MarksGroup(delay, rs, a, j, i) {
      CandidateInDay(delay, rs, a, b, day, i);
      if 0 <= i < |a| {
        forall k | |a| <= k < |all| ensures all[i].t <= all[k].t {
          LaterDayLaterTime(all[i].t, all[k].t);
        }
        assert LastSeenAt(all, j, all[i].t) <==> LastSeenAt(a, j, a[i].t);
      }
    }
  }

  /** A tick of the joined stream at a later day's time is one of the later ticks. */
  lemma LaterTickIsLater(a: seq<Tick>, b: seq<Tick>, day: int, i: int, t: int)
    requires DayThenLater(a, b, day) && 0 <= i < |a + b| && (a + b)[i].t == t && day < DayStart(t)
    ensures |a| <= i && (a + b)[i] == b[i - |a|]
  {
  }

  lemma CandidateTimeLater(delay: nat, rs: seq<Receipt>, a: seq<Tick>, b: seq<Tick>, day: int, t: int)
    requires DayThenLater(a, b, day) && day < DayStart(t)
    ensures CandidateTime(delay, rs, a + b, t) <==> CandidateTime(delay, rs, b, t)
  {
    hide FillCandidate, DayStart, DayThenLater;
    var all, n := a + b, |a|;
    if CandidateTime(delay, rs, all, t) {
      var i :| 0 <= i < |all| && all[i].t == t && FillCandidate(delay, rs, all, i);
      LaterTickIsLater(a, b, day, i, t);
      CandidateInDay(delay, rs, a, b, day, i);
      assert b[i - n].t == t;
    }
    if CandidateTime(delay, rs, b, t) {
      var i :| 0 <= i < |b| && b[i].t == t && FillCandidate(delay, rs, b, i);
      CandidateInDay(delay, rs, a, b, day, n + i);
      assert all[n + i].t == t;
    }
  }

  lemma MarksGroupLater(delay: nat, rs: seq<Receipt>, a: seq<Tick>, b: seq<Tick>, day: int, j: int, i: int)
    requires DayThenLater(a, b, day) && 0 <= j < |b|
    ensures MarksGroup(delay, rs, a + b, |a| + j, i) <==> MarksGroup(delay, rs, b, j, i - |a|)
  {
    hide FillCandidate, DayStart, LastSeenAt;
    var all, n := a + b, |a|;
    assert forall k :: 0 <= k < n ==> all[k] == a[k];
    assert forall k :: 0 <= k < |b| ==> all[n + k] == b[k];
    CandidateInDay(delay, rs, a, b, day, i);
    if n <= i < |all| {
      assert all[i] == b[i - n];
      LastSeenShifts(a, b, j, all[i].t);
    }
  }

  lemma WantedLater(delay: nat, rs: seq<Receipt>, a: seq<Tick>, b: seq<Tick>, day: int, j: int)
    requires DayThenLater(a, b, day) && 0 <= j < |b|
    ensures Wanted(delay, rs, a + b, |a| + j) <==> Wanted(delay, rs, b, j)
  {
    hide CandidateTime, MarksGroup, LastOfDay;
    var all, n, m := a + b, |a|, |a| + j;
    assert all[m] == b[j];
    LastOfDayShifts(a, b, j);
    CandidateTimeLater(delay, rs, a, b, day, b[j].t);
    forall i ensures MarksGroup(delay, rs, all, m, i) <==> MarksGroup(delay, rs, b, j, i - n) {
      MarksGroupLater(delay, rs, a, b, day, j, i);
    }
    if x :| MarksGroup(delay, rs, b, j, x) {
      MarksGroupLater(delay, rs, a, b, day, j, x + n);
      assert MarksGroup(delay, rs, all, m, x + n);
    }
  }

  lemma LastOfDayShifts(a: seq<Tick>, b: seq<Tick>, j: int)
    requires 0 <= j < |b|
    ensures LastOfDay(a + b, |a| + j) <==> LastOfDay(b, j)
  {
    hide DayStart;
    var all := a + b;
    assert forall k :: 0 <= k < |b| ==> all[|a| + k] == b[k];
    assert forall k :: |a| <= k < |all| ==> all[k] == b[k - |a|];
  }

  lemma LastSeenShifts(a: seq<Tick>, b: seq<Tick>, j: int, t: int)
    requires 0 <= j < |b|
    ensures LastSeenAt(a + b, |a| + j, t) <==> LastSeenAt(b, j, t)
  {
    var all := a + b;
    assert forall k :: 0 <= k < |b| ==> all[|a| + k] == b[k];
    assert forall k :: |a| <= k < |all| ==> all[k] == b[k - |a|];
  }

  /** Days are thinned one at a time. */
  lemma ThinConcat(delay: nat, rs: seq<Receipt>, a: seq<Tick>, b: seq<Tick>, day: int)
    requires DayThenLater(a, b, day)
    ensures ThinStream(delay, rs, a + b) == ThinStream(delay, rs, a) + ThinStream(delay, rs, b)
  {
    hide Wanted;
    var k, ka, kb := WantedIndices(delay, rs, a + b), WantedIndices(delay, rs, a), WantedIndices(delay, rs, b);
    forall j | 0 <= j < |a| ensures j in ka <==> j in k {
      WantedInDay(delay, rs, a, b, day, j);
    }
    forall j | 0 <= j < |b| ensures j in kb <==> j + |a| in k {
      WantedLater(delay, rs, a, b, day, j);
    }
    SubHead(a, b, k, ka, kb, 0);
  }

  // ---------------------------------------------------------------- the pairs of the day

  ghost function TouchedFilter(env: Env, all: seq<Receipt>): Tick -> bool
  {
    (t: Tick) => TouchedByDayEnd(env, all, t)
  }

  lemma TouchedIsFilter(env: Env, all: seq<Receipt>, tk: seq<Tick>)
    ensures TouchedStream(env, all, tk) == Filter(TouchedFilter(env, all), tk)
  {
    hide TouchedByDayEnd;
    SubIsFilter(tk, TouchedIndices(env, all, tk), TouchedFilter(env, all));
  }

  lemma TouchedConcat(env: Env, all: seq<Receipt>, a: seq<Tick>, b: seq<Tick>)
    ensures TouchedStream(env, all, a + b) == TouchedStream(env, all, a) + TouchedStream(env, all, b)
  {
    TouchedIsFilter(env, all, a);
    TouchedIsFilter(env, all, b);
    TouchedIsFilter(env, all, a + b);
    FilterConcat(TouchedFilter(env, all), a, b);
  }

  lemma TouchedKeepsDays(env: Env, all: seq<Receipt>, a: seq<Tick>, b: seq<Tick>, day: int)
    requires DayThenLater(a, b, day)
    ensures DayThenLater(TouchedStream(env, all, a), TouchedStream(env, all, b), day)
  {
    hide DayStart, TouchedIndices;
    var sa, sb := TouchedStream(env, all, a), TouchedStream(env, all, b);
    forall k | 0 <= k < |sa| ensures DayStart(sa[k].t) == day {
      var j := SubElements(a, TouchedIndices(env, all, a), 0, k);
    }
    forall k | 0 <= k < |sb| ensures day < DayStart(sb[k].t) {
      var j := SubElements(b, TouchedIndices(env, all, b), 0, k);
    }
  }

  /** The pairs touched by receipts received before `t`. */
  ghost predicate PairsThrough(env: Env, all: seq<Receipt>, pairs: set<Pair>, t: int)
  {
    forall p :: p in pairs <==> exists r :: r in all && Touches(env, r, p) && r.tRecv < t
  }

  lemma DayIsTouched(env: Env, all: seq<Receipt>, pairs: set<Pair>, tk: seq<Tick>, day: int)
    requires PairsThrough(env, all, pairs, day + DAY_MS) && day % DAY_MS == 0
    requires forall k :: 0 <= k < |tk| ==> day <= tk[k].t < day + DAY_MS
    ensures Filter(Relevant(pairs, day), tk) == TouchedStream(env, all, tk)
  {
    hide Touches;
    forall k | 0 <= k < |tk| ensures k in TouchedIndices(env, all, tk) <==> Relevant(pairs, day)(tk[k]) {
      InsideDay(tk[k].t, day);
    }
    SubIsFilter(tk, TouchedIndices(env, all, tk), Relevant(pairs, day));
  }

  // ---------------------------------------------------------------- the windows of a day

  lemma ReadEndInDay(day: int, stop: int)
    requires day % DAY_MS == 0 && stop <= day + DAY_MS
    ensures ReadEnd(day, stop) <= day + DAY_MS
  {
    if day <= stop {
      assert day % WINDOW_MS == 0 by {
        assert day == day / DAY_MS * 480 * WINDOW_MS;
      }
      ReadEndOnGrid(day, stop);
      OnGridInDay(day, ReadEnd(day, stop), stop);
    }
  }

  lemma DayBounds(read: Reader, day: int, stop: int)
    requires WellSharded(read) && day % DAY_MS == 0 && stop <= day + DAY_MS
    ensures var tk := FullStream(read, day, stop);
            forall k :: 0 <= k < |tk| ==> day <= tk[k].t < day + DAY_MS && DayStart(tk[k].t) == day
  {
    hide DayStart, FullStream, ReadEnd;
    FullStreamOrdered(read, day, stop);
    ReadEndInDay(day, stop);
    var tk := FullStream(read, day, stop);
    forall k | 0 <= k < |tk| ensures day <= tk[k].t < day + DAY_MS && DayStart(tk[k].t) == day {
      InsideDay(tk[k].t, day);
    }
  }

  lemma OnGridInDay(day: int, e: int, stop: int)
    requires day % DAY_MS == 0 && e % WINDOW_MS == 0 && e < stop + WINDOW_MS && stop <= day + DAY_MS
    ensures e <= day + DAY_MS
  {
    assert DAY_MS == 480 * WINDOW_MS;
    var d, x := day / DAY_MS, e / WINDOW_MS;
    assert day == 480 * d * WINDOW_MS && e == x * WINDOW_MS;
    assert x < 480 * d + 480 + 1;
  }

  lemma LaterBounds(read: Reader, from: int, stop: int, day: int)
    requires WellSharded(read) && from == day + DAY_MS && day % DAY_MS == 0
    ensures var tk := FullStream(read, from, stop); forall k :: 0 <= k < |tk| ==> day < DayStart(tk[k].t)
  {
    hide FullStream;
    FullStreamOrdered(read, from, stop);
    var tk := FullStream(read, from, stop);
    forall k | 0 <= k < |tk| ensures day < DayStart(tk[k].t) {
      assert from <= tk[k].t;
    }
  }

  // ---------------------------------------------------------------- the days in turn

  ghost function RangeThin(env: Env, all: seq<Receipt>, read: Reader, from: int, end: int): seq<Tick>
  {
    ThinStream(env.rules.fillDelay, all, TouchedStream(env, all, FullStream(read, from, end)))
  }

  /** The thin of the days from `day` on is the thin of that day followed by the thin of the rest. */
  lemma RangeThinStep(env: Env, all: seq<Receipt>, read: Reader, day: int, end: int, stop: int,
                      pairs: set<Pair>, dayRs: seq<Receipt>)
    requires WellSharded(read) && day % DAY_MS == 0 && day < end
    requires stop == if end < day + DAY_MS then end else day + DAY_MS
    requires PairsThrough(env, all, pairs, day + DAY_MS)
    requires forall r :: r in dayRs ==> r in all
    requires forall r :: r in all && day <= r.tRecv + env.rules.fillDelay < day + DAY_MS ==> r in dayRs
    ensures RangeThin(env, all, read, day, end)
            == ThinStream(env.rules.fillDelay, dayRs, RelevantStream(read, pairs, day, day, stop))
               + RangeThin(env, all, read, day + DAY_MS, end)
  {
    hide ThinStream, TouchedStream, FullStream, Filter, DayStart, PairsThrough, Due;
    var a, b := FullStream(read, day, stop), FullStream(read, day + DAY_MS, end);
    DayBounds(read, day, stop);
    LaterBounds(read, day + DAY_MS, end, day);
    StreamOfDays(read, day, end, stop);
    TouchedConcat(env, all, a, b);
    TouchedKeepsDays(env, all, a, b, day);
    ThinConcat(env.rules.fillDelay, all, TouchedStream(env, all, a), TouchedStream(env, all, b), day);
    DayIsTouched(env, all, pairs, a, day);
    ThinStreamLocal(env.rules.fillDelay, dayRs, all, TouchedStream(env, all, a), day);
  }

  lemma StreamOfDays(read: Reader, day: int, end: int, stop: int)
    requires day < end && stop == if end < day + DAY_MS then end else day + DAY_MS
    ensures FullStream(read, day, end) == FullStream(read, day, stop) + FullStream(read, day + DAY_MS, end)
  {
    if end < day + DAY_MS {
      assert FullStream(read, day + DAY_MS, end) == [];
    } else {
      assert DAY_MS % WINDOW_MS == 0;
      FullStreamSplits(read, day, day + DAY_MS, end);
    }
  }

  lemma {:induction false} MissingSplits(read: Reader, w: int, mid: int, stop: int)
    requires w <= mid <= stop && (mid - w) % WINDOW_MS == 0
    ensures MissingWindows(read, w, stop) == MissingWindows(read, w, mid) + MissingWindows(read, mid, stop)
    decreases mid - w
  {
    if w < mid {
      MissingSplits(read, w + WINDOW_MS, mid, stop);
    }
  }

  // ---------------------------------------------------------------- load_thin_range

  predicate ReceiptLeq(x: Receipt, y: Receipt)
  {
    x.tRecv < y.tRecv || (x.tRecv == y.tRecv &&
    (x.account < y.account || (x.account == y.account && x.seqNo <= y.seqNo)))
  }

  lemma ReceiptOrder()
    ensures TotalPreorder(ReceiptLeq)
  {
  }

  lemma SortedByTime(rs: seq<Receipt>)
    ensures ReceiptsSorted(Sort(ReceiptLeq, rs))
    ensures forall r :: r in Sort(ReceiptLeq, rs) <==> r in rs
  {
    ReceiptOrder();
    SortOrdered(ReceiptLeq, rs);
    SortElements(ReceiptLeq, rs);
  }

  /** bisect.bisect_left: how many leading entries are below x. */
  method BisectLeft(times: seq<int>, x: int) returns (k: nat)
    requires forall i, j :: 0 <= i < j < |times| ==> times[i] <= times[j]
    ensures k <= |times| && (forall i :: 0 <= i < k ==> times[i] < x) && (forall i :: k <= i < |times| ==> x <= times[i])
  {
    var lo, hi := 0, |times|;
    while lo < hi
      invariant 0 <= lo <= hi <= |times|
      invariant forall i :: 0 <= i < lo ==> times[i] < x
      invariant forall i :: hi <= i < |times| ==> x <= times[i]
    {
      var mid := (lo + hi) / 2;
      if times[mid] < x { lo := mid + 1; } else { hi := mid; }
    }
    k := lo;
  }

  method AddPairs(env: Env, r: Receipt, pairs0: set<Pair>) returns (pairs: set<Pair>)
    ensures forall p :: p in pairs <==> p in pairs0 || Touches(env, r, p)
  {
    pairs := pairs0 + (set p | p in Keys(r) && p in env.universe);
  }

  /** Receipts of the day's end onward touch nothing the day reads. */
  lemma PairsStep(env: Env, rs: seq<Receipt>, n: nat, pairs0: set<Pair>, pairs: set<Pair>)
    requires n < |rs|
    requires forall p :: p in pairs0 <==> exists r :: r in rs[..n] && Touches(env, r, p)
    requires forall p :: p in pairs <==> p in pairs0 || Touches(env, rs[n], p)
    ensures forall p :: p in pairs <==> exists r :: r in rs[..n + 1] && Touches(env, r, p)
  {
    hide Touches;
    assert rs[..n + 1] == rs[..n] + [rs[n]];
    forall p ensures p in pairs <==> exists r :: r in rs[..n + 1] && Touches(env, r, p) {
      if p in pairs0 {
        var r :| r in rs[..n] && Touches(env, r, p);
        assert r in rs[..n + 1];
      }
    }
  }

  lemma PairsOfPrefix(env: Env, rs: seq<Receipt>, n: nat, pairs: set<Pair>, t: int)
    requires n <= |rs|
    requires forall p :: p in pairs <==> exists r :: r in rs[..n] && Touches(env, r, p)
    requires forall i :: 0 <= i < n ==> rs[i].tRecv < t
    requires forall i :: n <= i < |rs| ==> t <= rs[i].tRecv
    ensures PairsThrough(env, rs, pairs, t)
  {
    hide Touches;
    forall r ensures r in rs[..n] <==> r in rs && r.tRecv < t {
      if r in rs && r.tRecv < t {
        var i :| 0 <= i < |rs| && rs[i] == r;
        assert rs[..n][i] == r;
      }
    }
  }

  lemma DaySlice(rs: seq<Receipt>, lo: nat, hi: nat, from: int, to: int)
    requires lo <= hi <= |rs|
    requires forall i :: 0 <= i < lo ==> rs[i].tRecv < from
    requires forall i :: hi <= i < |rs| ==> to <= rs[i].tRecv
    ensures forall r :: r in rs[lo..hi] ==> r in rs
    ensures forall r :: r in rs && from <= r.tRecv < to ==> r in rs[lo..hi]
  {
    forall r | r in rs && from <= r.tRecv < to ensures r in rs[lo..hi] {
      var i :| 0 <= i < |rs| && rs[i] == r;
      assert rs[lo..hi][i - lo] == r;
    }
  }

  /** Take in the receipts received before `t`. */
  method TakeUntil(env: Env, rs: seq<Receipt>, k0: nat, pairs0: set<Pair>, t: int) returns (k: nat, pairs: set<Pair>)
    requires k0 <= |rs| && ReceiptsSorted(rs)
    requires forall i :: 0 <= i < k0 ==> rs[i].tRecv < t
    requires forall p :: p in pairs0 <==> exists r :: r in rs[..k0] && Touches(env, r, p)
    ensures k <= |rs| && (forall i :: 0 <= i < k ==> rs[i].tRecv < t) && (forall i :: k <= i < |rs| ==> t <= rs[i].tRecv)
    ensures forall p :: p in pairs <==> exists r :: r in rs[..k] && Touches(env, r, p)
  {
    hide Touches;
    k, pairs := k0, pairs0;
    while k < |rs| && rs[k].tRecv < t
      invariant k <= |rs|
      invariant forall i :: 0 <= i < k ==> rs[i].tRecv < t
      invariant forall p :: p in pairs <==> exists r :: r in rs[..k] && Touches(env, r, p)
    {
      var more := AddPairs(env, rs[k], pairs);
      PairsStep(env, rs, k, pairs, more);
      pairs := more;
      k := k + 1;
    }
  }

  /** The receipts received in [from, t): the sorted slice between two positions. */
  method ReceiptsFrom(rs: seq<Receipt>, k: nat, from: int, t: int) returns (some: seq<Receipt>)
    requires k <= |rs| && ReceiptsSorted(rs) && from <= t
    requires (forall i :: 0 <= i < k ==> rs[i].tRecv < t) && (forall i :: k <= i < |rs| ==> t <= rs[i].tRecv)
    ensures forall r :: r in some ==> r in rs
    ensures forall r :: r in rs && from <= r.tRecv < t ==> r in some
  {
    var times := seq(|rs|, i requires 0 <= i < |rs| => rs[i].tRecv);
    var lo := BisectLeft(times, from);
    assert forall i :: 0 <= i < lo ==> rs[i].tRecv == times[i] < from;
    assert k < |rs| ==> t <= times[k];
    assert lo <= k;
    some := rs[lo..k];
    DaySlice(rs, lo, k, from, t);
  }

  /** The days that overlap [start, end), thinned one by one: exactly the wanted ticks of the touched rows of
      the full stream, and the windows that were missing. */
  method LoadThinRange(env: Env, receipts: seq<Receipt>, read: Reader, end: int)
    returns (out: seq<Tick>, missing: seq<int>)
    requires WellSharded(read)
    ensures out == RangeThin(env, Sort(ReceiptLeq, receipts), read, DayStart(env.start), end)
    ensures missing == MissingWindows(read, DayStart(env.start), end)
  {
    hide RangeThin, ThinStream, RelevantStream, Touches, PairsThrough, Sort, WellSharded, DayStart, MissingWindows;
    var rs := Sort(ReceiptLeq, receipts);
    SortedByTime(receipts);
    out, missing := [], [];
    var pairs: set<Pair> := {};
    var k: nat := 0;
    var d := DayStart(env.start);
    DayStartOnGrid(env.start);
    while d < end
      invariant d % DAY_MS == 0
      invariant k <= |rs|
      invariant forall i :: 0 <= i < k ==> rs[i].tRecv < d
      invariant forall p :: p in pairs <==> exists r :: r in rs[..k] && Touches(env, r, p)
      invariant out + RangeThin(env, rs, read, d, end) == RangeThin(env, rs, read, DayStart(env.start), end)
      invariant missing + MissingWindows(read, d, end) == MissingWindows(read, DayStart(env.start), end)
      decreases end - d
    {
      var dayEnd := d + DAY_MS;
      k, pairs := TakeUntil(env, rs, k, pairs, dayEnd);
      var dayRs := ReceiptsFrom(rs, k, d - env.rules.fillDelay, dayEnd);
      PairsOfPrefix(env, rs, k, pairs, dayEnd);
      var until := if end < dayEnd then Some(end) else None;
      var ticks, miss := ThinDay(d, dayRs, pairs, read, env.rules.fillDelay, until);
      RangeThinStep(env, rs, read, d, end, StopOf(d, until), pairs, dayRs);
      MissingStep(read, d, end, StopOf(d, until));
      out := out + ticks;
      missing := missing + miss;
      d := dayEnd;
    }
    RangeDone(env, rs, read, d, end);
  }

  lemma DayStartOnGrid(t: int)
    ensures DayStart(t) % DAY_MS == 0 && DayStart(t) <= t
  {
  }

  lemma RangeDone(env: Env, rs: seq<Receipt>, read: Reader, d: int, end: int)
    requires d >= end
    ensures RangeThin(env, rs, read, d, end) == [] && MissingWindows(read, d, end) == []
  {
  }

  lemma MissingStep(read: Reader, d: int, end: int, stop: int)
    requires d < end && stop == if end < d + DAY_MS then end else d + DAY_MS
    ensures MissingWindows(read, d, end) == MissingWindows(read, d, stop) + MissingWindows(read, d + DAY_MS, end)
  {
    if end < d + DAY_MS {
      assert MissingWindows(read, d + DAY_MS, end) == [];
    } else {
      MissingSplits(read, d, d + DAY_MS, end);
    }
  }
}
