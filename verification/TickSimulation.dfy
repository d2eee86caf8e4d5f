/**
 Which ticks a replay reads. Any sub-stream that keeps the ticks at which a pair can fill, and the last
 tick of every live pair before each read, replays exactly like the full stream: fills, refusals, daily
 and weekly rows, series and elimination.
 */
module TickSimulation {
  import opened Wrappers
  import opened Sums
  import opened AgentBooks
  import opened BookRules

  // ---------------------------------------------------------------- sub-streams

  /** The ticks from index `i` on whose index is kept. */
  function Sub(tk: seq<Tick>, keep: set<int>, i: nat): seq<Tick>
    decreases |tk| - i
  {
    if i >= |tk| then []
    else if i in keep then [tk[i]] + Sub(tk, keep, i + 1)
    else Sub(tk, keep, i + 1)
  }

  lemma {:induction false} SubElements(tk: seq<Tick>, keep: set<int>, i: nat, k: nat) returns (j: int)
    requires k < |Sub(tk, keep, i)|
    ensures i <= j < |tk| && j in keep && Sub(tk, keep, i)[k] == tk[j]
    decreases |tk| - i
  {
    if i in keep {
      if k == 0 {
        j := i;
      } else {
        j := SubElements(tk, keep, i + 1, k - 1);
      }
    } else {
      j := SubElements(tk, keep, i + 1, k);
    }
  }

  lemma {:induction false} SubSorted(tk: seq<Tick>, keep: set<int>, i: nat)
    requires TicksSorted(tk)
    ensures TicksSorted(Sub(tk, keep, i))
    decreases |tk| - i
  {
    if i < |tk| {
      SubSorted(tk, keep, i + 1);
      var rest := Sub(tk, keep, i + 1);
      forall k | 0 <= k < |rest| ensures tk[i].t <= rest[k].t {
        var j := SubElements(tk, keep, i + 1, k);
      }
    }
  }

  // ---------------------------------------------------------------- what a replay reads

  function EligibleAt(env: Env, r: Receipt): int
  {
    r.tRecv + env.rules.fillDelay
  }

  /** `j` is the last tick of `pair` before index `c`. */
  predicate LastBefore(tk: seq<Tick>, c: int, pair: Pair, j: int)
  {
    0 <= j < c <= |tk| && tk[j].a == pair && forall k :: j < k < c ==> tk[k].a != pair
  }

  /** No tick of `pair` before index `i` is at or after `e`. */
  predicate NoneSince(tk: seq<Tick>, i: int, pair: Pair, e: int)
    requires i <= |tk|
  {
    forall k :: 0 <= k < i && tk[k].a == pair ==> tk[k].t < e
  }

  /** The tick at `i` is the first of its pair at or after some receipt's eligible time. */
  predicate Candidate(env: Env, rs: seq<Receipt>, tk: seq<Tick>, i: int)
  {
    0 <= i < |tk| &&
    exists r :: r in rs && Touches(env, r, tk[i].a) && EligibleAt(env, r) <= tk[i].t
                && NoneSince(tk, i, tk[i].a, EligibleAt(env, r))
  }

  /** `pair` may be held at index `c`: it has ticked since a receipt touching it became eligible. */
  predicate Live(env: Env, rs: seq<Receipt>, tk: seq<Tick>, c: int, pair: Pair)
    requires c <= |tk|
  {
    exists j, r :: 0 <= j < c && tk[j].a == pair && r in rs && Touches(env, r, pair) && EligibleAt(env, r) <= tk[j].t
  }

  /** Index `c` separates the ticks before time `t` from the rest. */
  predicate CutAt(tk: seq<Tick>, c: int, t: int)
  {
    0 <= c <= |tk| && (forall k :: 0 <= k < c ==> tk[k].t < t) && (forall k :: c <= k < |tk| ==> t <= tk[k].t)
  }

  /** The instants at which every held pair is marked: the day ends, and the end of the replay. */
  predicate ReadTime(env: Env, end: int, t: int)
  {
    t == end + 1 || (t % DAY_MS == 0 && DayStart(env.start) < t <= end)
  }

  ghost predicate KeepsMarks(env: Env, rs: seq<Receipt>, tk: seq<Tick>, c: int, keep: set<int>)
    requires c <= |tk|
  {
    forall pair, j :: LastBefore(tk, c, pair, j) && Live(env, rs, tk, c, pair) ==> j in keep
  }

  /** `keep` holds every tick the replay of `rs` over `tk` can read. */
  ghost predicate KeepsNeeded(env: Env, rs: seq<Receipt>, tk: seq<Tick>, end: int, keep: set<int>)
  {
    && (forall i :: Candidate(env, rs, tk, i) && tk[i].t <= end ==> i in keep && KeepsMarks(env, rs, tk, i, keep))
    && (forall t, c :: ReadTime(env, end, t) && CutAt(tk, c, t) ==> KeepsMarks(env, rs, tk, c, keep))
  }

  /** No receipt can fill before the replay starts. */
  ghost predicate NoEarlyCandidate(env: Env, rs: seq<Receipt>, tk: seq<Tick>)
  {
    forall i :: Candidate(env, rs, tk, i) ==> env.start <= tk[i].t
  }

  // ---------------------------------------------------------------- books that differ in their marks only

  function Remark(b: Book, marks: map<Pair, real>): Book
  {
    b.(marks := marks)
  }

  predicate AgreeOnHeld(b: Book, marks: map<Pair, real>)
  {
    forall p :: p in b.qty && b.qty[p] != 0.0 ==> Get(b.marks, p) == Get(marks, p)
  }

  lemma UnrealisedReadsHeld(b: Book, marks: map<Pair, real>)
    requires AgreeOnHeld(b, marks)
    ensures Unrealised(Remark(b, marks)) == Unrealised(b)
    ensures EquityOf(Remark(b, marks)) == EquityOf(b)
    ensures BalanceOf(Remark(b, marks)) == BalanceOf(b)
    ensures Positions(Remark(b, marks)) == Positions(b)
  {
    var c := Remark(b, marks);
    forall p | p in b.qty.Keys ensures OpenPnl(c)(p) == OpenPnl(b)(p) {
      if b.qty[p] == 0.0 {
        assert OpenPnl(c)(p) == 0.0 && OpenPnl(b)(p) == 0.0;
      }
    }
    SumCongruent(b.qty.Keys, OpenPnl(c), OpenPnl(b));
  }

  lemma CarryReadsHeld(env: Env, b: Book, marks: map<Pair, real>, t: int)
    requires AgreeOnHeld(b, marks)
    ensures CarryDue(env, Remark(b, marks), t) == CarryDue(env, b, t)
  {
    hide Notional;
    var c := Remark(b, marks);
    assert HeldSet(c) == HeldSet(b);
    forall p | p in HeldSet(b) ensures CarryOn(env, c, p, t) == CarryOn(env, b, p, t) {
      assert Get(b.marks, p) == Get(c.marks, p) && Get(b.qty, p) == Get(c.qty, p);
    }
    SumCongruent(HeldSet(b), CarryTerm(env, c, t), CarryTerm(env, b, t));
  }

  lemma TradeIgnoresMarks(b: Book, marks: map<Pair, real>, pair: Pair, dq: real, px: real, feeRate: real)
    ensures Trade(Remark(b, marks), pair, dq, px, feeRate) == Remark(Trade(b, pair, dq, px, feeRate), marks)
  {
    hide Fee;
  }

  lemma TradeKeepsMarks(b: Book, pair: Pair, dq: real, px: real, feeRate: real)
    ensures Trade(b, pair, dq, px, feeRate).marks == b.marks
  {
    hide Fee;
  }

  lemma {:induction false} CloseEachReadsHeld(env: Env, b: Book, marks: map<Pair, real>, pairs: seq<Pair>)
    requires forall p :: p in pairs ==> Get(b.marks, p) == Get(marks, p)
    ensures CloseEach(env, Remark(b, marks), pairs) == Remark(CloseEach(env, b, pairs), marks)
    ensures CloseEach(env, b, pairs).marks == b.marks
    decreases |pairs|
  {
    hide Trade, FeeRate;
    if pairs != [] {
      var p := pairs[0];
      var dq, px, fee := -Get(b.qty, p), Get(b.marks, p), FeeRate(env, p);
      TradeIgnoresMarks(b, marks, p, dq, px, fee);
      TradeKeepsMarks(b, p, dq, px, fee);
      CloseEachReadsHeld(env, Trade(b, p, dq, px, fee), marks, pairs[1..]);
    }
  }

  lemma {:induction false} CloseEachQty(env: Env, b: Book, pairs: seq<Pair>, p: Pair)
    ensures Get(CloseEach(env, b, pairs).qty, p) == if p in pairs then 0.0 else Get(b.qty, p)
    decreases |pairs|
  {
    hide Fee, FeeRate;
    if pairs != [] {
      var x := pairs[0];
      var t := Trade(b, x, -Get(b.qty, x), Get(b.marks, x), FeeRate(env, x));
      CloseEachQty(env, t, pairs[1..], p);
      ClosesToZero(b, x, Get(b.marks, x), FeeRate(env, x));
    }
  }

  lemma ClosesToZero(b: Book, pair: Pair, px: real, feeRate: real)
    ensures var t := Trade(b, pair, -Get(b.qty, pair), px, feeRate);
            forall p :: Get(t.qty, p) == if p == pair then 0.0 else Get(b.qty, p)
  {
    hide Fee;
  }

  function RemarkState(s: State, marks: map<Pair, real>): State
  {
    s.(book := Remark(s.book, marks))
  }

  lemma SameResult(s: State, marks: map<Pair, real>)
    requires AgreeOnHeld(s.book, marks)
    ensures ResultOf(RemarkState(s, marks)) == ResultOf(s)
  {
    UnrealisedReadsHeld(s.book, marks);
  }

  lemma ChargedReadsHeld(env: Env, b: Book, marks: map<Pair, real>, t: int)
    requires AgreeOnHeld(b, marks)
    ensures Charged(env, Remark(b, marks), t) == Remark(Charged(env, b, t), marks)
    ensures AgreeOnHeld(Charged(env, b, t), marks) && Charged(env, b, t).marks == b.marks
    ensures Charged(env, b, t).qty == b.qty
  {
    hide CarryDue;
    CarryReadsHeld(env, b, marks, t);
  }

  lemma CloseOutReadsHeld(env: Env, s: State, marks: map<Pair, real>, t: int)
    requires AgreeOnHeld(s.book, marks)
    ensures CloseOut(env, RemarkState(s, marks), t) == RemarkState(CloseOut(env, s, t), marks)
    ensures CloseOut(env, s, t).book.marks == s.book.marks
    ensures forall p :: !Holds(CloseOut(env, s, t).book, p)
  {
    hide CloseEach, WeekStart;
    var b := s.book;
    assert HeldSet(Remark(b, marks)) == HeldSet(b);
    CloseEachReadsHeld(env, b, marks, InOrder(HeldSet(b)));
    forall p ensures Get(CloseEach(env, b, InOrder(HeldSet(b))).qty, p) == 0.0 {
      CloseEachQty(env, b, InOrder(HeldSet(b)), p);
    }
  }

  lemma DayEndReadsHeld(env: Env, s: State, marks: map<Pair, real>, t: int)
    requires AgreeOnHeld(s.book, marks)
    ensures DayEnd(env, RemarkState(s, marks), t) == RemarkState(DayEnd(env, s, t), marks)
    ensures DayEnd(env, s, t).book.marks == s.book.marks
    ensures forall p :: Holds(DayEnd(env, s, t).book, p) ==> Holds(s.book, p)
  {
    hide Charged, EquityOf, CloseOut, ElimFloor, AgreeOnHeld;
    if s.eliminatedAt.None? {
      ChargedReadsHeld(env, s.book, marks, t);
      var b := Charged(env, s.book, t);
      UnrealisedReadsHeld(b, marks);
      var elim := EquityOf(b) < ElimFloor(s.ath, env.rules);
      var s1 := s.(book := b,
                   daily := s.daily + [DayRow(t, EquityOf(b), s.ath, elim)],
                   series := s.series + [(t, EquityOf(b))]);
      CloseOutReadsHeld(env, s1, marks, t);
    }
  }

  lemma BoundaryReadsHeld(env: Env, s: State, marks: map<Pair, real>, t: int)
    requires AgreeOnHeld(s.book, marks)
    ensures Boundary(env, RemarkState(s, marks), t) == RemarkState(Boundary(env, s, t), marks)
    ensures Boundary(env, s, t).book.marks == s.book.marks
    ensures forall p :: Holds(Boundary(env, s, t).book, p) ==> Holds(s.book, p)
  {
    hide Unrealised, DayEnd;
    DayEndReadsHeld(env, s, marks, t);
    var d := DayEnd(env, s, t);
    forall p | p in d.book.qty && d.book.qty[p] != 0.0 ensures Get(d.book.marks, p) == Get(marks, p) {
      assert Holds(d.book, p);
      assert Holds(s.book, p);
    }
    UnrealisedReadsHeld(d.book, marks);
  }

  lemma AcceptIgnoresMarks(env: Env, s: State, marks: map<Pair, real>, r: Receipt)
    ensures Accept(env, RemarkState(s, marks), r) == RemarkState(Accept(env, s, r), marks)
    ensures Accept(env, s, r).book == s.book
  {
    hide Judge, Declare, Enqueue, DayStart;
    var t := RemarkState(s, marks);
    var day := DayStart(r.tRecv);
    assert Judge(env, t.declared, t.lastSeq, UsedOn(t, day), r) == Judge(env, s.declared, s.lastSeq, UsedOn(s, day), r);
  }

  /** A fill reads the marks of the held pairs and of the pair that fills. */
  lemma FillReadsHeld(env: Env, s: State, marks: map<Pair, real>, tick: Tick, n: nat)
    requires 0 < n <= |PendingOf(s, tick.a)|
    requires AgreeOnHeld(s.book, marks) && Get(s.book.marks, tick.a) == Get(marks, tick.a)
    ensures FillAt(env, RemarkState(s, marks), tick, n) == RemarkState(FillAt(env, s, tick, n), marks)
    ensures FillAt(env, s, tick, n).book.marks == s.book.marks
    ensures forall p :: p != tick.a && Holds(FillAt(env, s, tick, n).book, p) ==> Holds(s.book, p)
  {
    hide Unrealised, Quote, Desired, FeeRate, Trade;
    UnrealisedReadsHeld(s.book, marks);
    var last := PendingOf(s, tick.a)[n - 1];
    var dq := Desired(last.target, EquityOf(s.book), tick.p) - Get(s.book.qty, tick.a);
    if dq != 0.0 {
      var (bid, ask) := Quote(tick, env.rules.halfSpreadBps);
      var px, fee := if dq > 0.0 then ask else bid, FeeRate(env, tick.a);
      var traded := Trade(s.book, tick.a, dq, px, fee);
      TradeIgnoresMarks(s.book, marks, tick.a, dq, px, fee);
      TradeKeepsMarks(s.book, tick.a, dq, px, fee);
      TradeTouchesOnePair(s.book, tick.a, dq, px, fee);
      var book := if last.target == 0.0 then traded.(qty := traded.qty[tick.a := 0.0]) else traded;
      forall p | p in book.qty && book.qty[p] != 0.0 ensures Get(book.marks, p) == Get(marks, p) {
        if p != tick.a {
          assert Holds(s.book, p);
        }
      }
      UnrealisedReadsHeld(book, marks);
    }
  }

  lemma TradeTouchesOnePair(b: Book, pair: Pair, dq: real, px: real, feeRate: real)
    ensures forall p :: p != pair ==> Get(Trade(b, pair, dq, px, feeRate).qty, p) == Get(b.qty, p)
  {
    hide Fee;
  }

  // ---------------------------------------------------------------- the pending queues

  /** Every queued target comes from a receipt touching its pair, is due at that receipt's eligible time,
      and its pair has not ticked since; queues are in due order and nothing yet to come is due earlier. */
  ghost predicate QueuesFresh(env: Env, all: seq<Receipt>, tk: seq<Tick>, i: int, rest: seq<Receipt>, s: State)
    requires 0 <= i <= |tk|
  {
    forall p, k :: p in s.pending && 0 <= k < |s.pending[p]| ==>
      && QueuedBy(env, all, tk, i, p, s.pending[p][k].eligible)
      && (forall l :: k < l < |s.pending[p]| ==> s.pending[p][k].eligible <= s.pending[p][l].eligible)
      && (forall r :: r in rest ==> s.pending[p][k].eligible <= EligibleAt(env, r))
  }

  ghost predicate QueuedBy(env: Env, all: seq<Receipt>, tk: seq<Tick>, i: int, p: Pair, e: int)
    requires 0 <= i <= |tk|
  {
    NoneSince(tk, i, p, e) && exists r :: r in all && Touches(env, r, p) && EligibleAt(env, r) == e
  }

  lemma {:induction false} AsMapKeys(es: seq<(Pair, Lev)>)
    ensures forall p :: p in AsMap(es) ==> exists e :: e in es && e.0 == p
    decreases |es|
  {
    if es != [] {
      AsMapKeys(es[..|es| - 1]);
    }
  }

  lemma AcceptKeepsQueues(env: Env, all: seq<Receipt>, tk: seq<Tick>, i: nat, rs: seq<Receipt>, s: State)
    requires i <= |tk| && rs != [] && ReceiptsSorted(rs) && rs[0] in all
    requires forall k :: 0 <= k < i ==> tk[k].t < rs[0].tRecv
    requires QueuesFresh(env, all, tk, i, rs, s)
    ensures QueuesFresh(env, all, tk, i, rs[1..], Accept(env, s, rs[0]))
  {
    hide GrossOf, ChangeAllowed, Declare, Enqueue, QueuesFresh, FirstBadEntry, Changed, AsMap;
    var r := rs[0];
    var n := Accept(env, s, r);
    if n.pending != s.pending {
      var changed := Changed(AsMap(r.targets.entries), s.declared);
      ChangedIsListed(env, r, s.declared);
      EnqueueKeepsQueues(env, all, tk, i, rs, s, n, changed);
    } else {
      QueuesFreshForLater(env, all, tk, i, rs, s, n);
    }
  }

  lemma ChangedIsListed(env: Env, r: Receipt, declared: map<Pair, real>)
    requires r.targets.Dict? && FirstBadEntry(env, r.targets.entries).None?
    ensures forall p :: p in Changed(AsMap(r.targets.entries), declared) ==> Touches(env, r, p)
  {
    AsMapKeys(r.targets.entries);
    forall p | p in Changed(AsMap(r.targets.entries), declared) ensures Touches(env, r, p) {
      AllListed(env, r, p);
    }
  }

  lemma QueuesFreshForLater(env: Env, all: seq<Receipt>, tk: seq<Tick>, i: nat, rs: seq<Receipt>, s: State, n: State)
    requires i <= |tk| && rs != [] && QueuesFresh(env, all, tk, i, rs, s) && n.pending == s.pending
    ensures QueuesFresh(env, all, tk, i, rs[1..], n)
  {
    assert forall x :: x in rs[1..] ==> x in rs;
  }

  lemma EnqueueKeepsQueues(env: Env, all: seq<Receipt>, tk: seq<Tick>, i: nat, rs: seq<Receipt>, s: State, n: State,
                           changed: map<Pair, real>)
    requires i <= |tk| && rs != [] && ReceiptsSorted(rs) && rs[0] in all
    requires forall k :: 0 <= k < i ==> tk[k].t < rs[0].tRecv
    requires QueuesFresh(env, all, tk, i, rs, s)
    requires forall p :: p in changed ==> Touches(env, rs[0], p)
    requires n.pending == Enqueue(s.pending, changed, rs[0], env.rules.fillDelay)
    ensures QueuesFresh(env, all, tk, i, rs[1..], n)
  {
    hide Touches, NoneSince, QueuedBy;
    forall p, k | p in n.pending && 0 <= k < |n.pending[p]|
      ensures QueuedBy(env, all, tk, i, p, n.pending[p][k].eligible)
           && (forall l :: k < l < |n.pending[p]| ==> n.pending[p][k].eligible <= n.pending[p][l].eligible)
           && (forall x :: x in rs[1..] ==> n.pending[p][k].eligible <= EligibleAt(env, x))
    {
      if p in changed {
        EnqueuedFresh(env, all, tk, i, rs, p, Queue(s.pending, p), Pend(EligibleAt(env, rs[0]), changed[p], rs[0].seqNo), k);
      } else {
        assert n.pending[p] == s.pending[p];
        assert forall x :: x in rs[1..] ==> x in rs;
      }
    }
  }

  /** A queue with the receipt's entry behind it. */
  lemma EnqueuedFresh(env: Env, all: seq<Receipt>, tk: seq<Tick>, i: nat, rs: seq<Receipt>, p: Pair, q: seq<Pend>, last: Pend, k: nat)
    requires i <= |tk| && rs != [] && ReceiptsSorted(rs) && rs[0] in all && Touches(env, rs[0], p)
    requires last.eligible == EligibleAt(env, rs[0]) && forall m :: 0 <= m < i ==> tk[m].t < rs[0].tRecv
    requires forall m :: 0 <= m < |q| ==>
               && QueuedBy(env, all, tk, i, p, q[m].eligible)
               && (forall l :: m < l < |q| ==> q[m].eligible <= q[l].eligible)
               && (forall x :: x in rs ==> q[m].eligible <= EligibleAt(env, x))
    requires k <= |q|
    ensures var n := q + [last];
            && QueuedBy(env, all, tk, i, p, n[k].eligible)
            && (forall l :: k < l < |n| ==> n[k].eligible <= n[l].eligible)
            && (forall x :: x in rs[1..] ==> n[k].eligible <= EligibleAt(env, x))
  {
    hide Touches, NoneSince;
    var r := rs[0];
    assert r in rs && forall x :: x in rs[1..] ==> x in rs && r.tRecv <= x.tRecv;
    if k == |q| {
      NothingSinceYet(env, tk, i, p, r);
    } else {
      assert q[k].eligible <= EligibleAt(env, r);
    }
  }

  lemma NothingSinceYet(env: Env, tk: seq<Tick>, i: nat, p: Pair, r: Receipt)
    requires i <= |tk| && forall k :: 0 <= k < i ==> tk[k].t < r.tRecv
    ensures NoneSince(tk, i, p, EligibleAt(env, r))
  {
  }

  lemma AllListed(env: Env, r: Receipt, p: Pair)
    requires r.targets.Dict? && FirstBadEntry(env, r.targets.entries).None? && p in AsMap(r.targets.entries)
    ensures p in env.universe
  {
    GoodEntriesWithinCap(env, r.targets.entries, p);
  }

  /** The front entries counted are due, the next one is not. */
  lemma {:induction false} EligibleFront(q: seq<Pend>, t: int)
    ensures var n := EligibleCount(q, t);
            && (n > 0 ==> q[0].eligible <= t)
            && (n < |q| ==> q[n].eligible > t)
    decreases |q|
  {
    if q != [] && q[0].eligible <= t {
      EligibleFront(q[1..], t);
    }
  }

  lemma TickKeepsQueues(env: Env, all: seq<Receipt>, tk: seq<Tick>, i: nat, rest: seq<Receipt>, s: State)
    requires i < |tk| && QueuesFresh(env, all, tk, i, rest, s)
    requires s.eliminatedAt.Some? ==> s.pending == map[]
    requires NoEarlyCandidate(env, all, tk)
    requires forall p :: p in s.pending ==> p in env.universe
    ensures QueuesFresh(env, all, tk, i + 1, rest, OnTick(env, s, tk[i]))
    ensures forall p :: p in OnTick(env, s, tk[i]).pending ==> p in env.universe
    ensures s.eliminatedAt.None? && tk[i].a in env.universe && EligibleCount(PendingOf(s, tk[i].a), tk[i].t) > 0
            ==> Candidate(env, all, tk, i)
  {
    hide OnTick, EligibleAt, Candidate, NoneSince, Touches;
    var tick := tk[i];
    var q := PendingOf(s, tick.a);
    var n := EligibleCount(q, tick.t);
    EligibleFront(q, tick.t);
    var o := OnTick(env, s, tick);
    if s.eliminatedAt.None? && tick.a in env.universe && n > 0 {
      assert QueuedBy(env, all, tk, i, tick.a, q[0].eligible);
      QueueHeadIsCandidate(env, all, tk, i, q[0].eligible);
    }
    TickPending(env, s, tick);
    assert tick.a in o.pending ==> o.pending[tick.a] == q[n..];
    forall p, k | p in o.pending && 0 <= k < |o.pending[p]|
      ensures QueuedBy(env, all, tk, i + 1, p, o.pending[p][k].eligible)
           && (forall l :: k < l < |o.pending[p]| ==> o.pending[p][k].eligible <= o.pending[p][l].eligible)
           && (forall r :: r in rest ==> o.pending[p][k].eligible <= EligibleAt(env, r))
    {
      if p == tick.a {
        assert o.pending[p] == q[n..];
        assert o.pending[p][k] == q[n + k];
        assert q[n].eligible <= q[n + k].eligible;
        assert QueuedBy(env, all, tk, i, p, q[n + k].eligible);
        assert NoneSince(tk, i + 1, p, q[n + k].eligible) by {
          NoneSinceNext(tk, i, p, q[n + k].eligible);
        }
      } else {
        assert o.pending[p] == s.pending[p];
        assert QueuedBy(env, all, tk, i, p, s.pending[p][k].eligible);
        NoneSinceNext(tk, i, p, s.pending[p][k].eligible);
      }
    }
  }

  lemma NoneSinceNext(tk: seq<Tick>, i: nat, p: Pair, e: int)
    requires i < |tk| && NoneSince(tk, i, p, e) && (tk[i].a == p ==> tk[i].t < e)
    ensures NoneSince(tk, i + 1, p, e)
  {
  }

  lemma QueueHeadIsCandidate(env: Env, all: seq<Receipt>, tk: seq<Tick>, i: nat, e: int)
    requires i < |tk| && QueuedBy(env, all, tk, i, tk[i].a, e) && e <= tk[i].t
    ensures Candidate(env, all, tk, i)
  {
  }

  /** A tick consumes the due front of its own pair's queue, when the book is alive and the replay has
      started, and nothing else. */
  lemma TickPending(env: Env, s: State, tick: Tick)
    ensures var o := OnTick(env, s, tick);
            var q := PendingOf(s, tick.a);
            var n := EligibleCount(q, tick.t);
            if s.eliminatedAt.None? && tick.a in env.universe && env.start <= tick.t && n > 0 then
              PendingOf(o, tick.a) == q[n..] && o.pending.Keys <= s.pending.Keys
              && forall p :: p in o.pending && p != tick.a ==> o.pending[p] == s.pending[p]
            else o.pending == s.pending
  {
    hide EquityOf, Quote, Desired, FeeRate, Trade;
  }

  // ---------------------------------------------------------------- the simulation

  /** Full-stream state `s` and sub-stream marks `marks` after `i` ticks. */
  ghost predicate Related(env: Env, all: seq<Receipt>, tk: seq<Tick>, keep: set<int>, i: int, rest: seq<Receipt>,
                          s: State, marks: map<Pair, real>)
    requires 0 <= i <= |tk|
  {
    && (forall p, j :: LastBefore(tk, i, p, j) && p in env.universe ==>
          Get(s.book.marks, p) == tk[j].p && (j in keep ==> Get(marks, p) == tk[j].p))
    && (forall p :: Holds(s.book, p) ==> p in env.universe && Live(env, all, tk, i, p))
    && (forall p :: p in s.pending ==> p in env.universe)
    && (s.eliminatedAt.Some? ==> s.pending == map[])
    && QueuesFresh(env, all, tk, i, rest, s)
  }

  lemma {:induction false} LastExists(tk: seq<Tick>, c: nat, p: Pair, k: nat) returns (j: int)
    requires k < c <= |tk| && tk[k].a == p
    ensures LastBefore(tk, c, p, j) && k <= j
    decreases c
  {
    if tk[c - 1].a == p {
      j := c - 1;
    } else {
      j := LastExists(tk, c - 1, p, k);
    }
  }

  /** At a read whose marks are kept, the two runs agree on every held pair. */
  lemma ReadAgrees(env: Env, all: seq<Receipt>, tk: seq<Tick>, keep: set<int>, i: nat, rest: seq<Receipt>,
                   s: State, marks: map<Pair, real>)
    requires i <= |tk| && Related(env, all, tk, keep, i, rest, s, marks) && KeepsMarks(env, all, tk, i, keep)
    ensures AgreeOnHeld(s.book, marks)
  {
    forall p | p in s.book.qty && s.book.qty[p] != 0.0 ensures Get(s.book.marks, p) == Get(marks, p) {
      assert Holds(s.book, p);
      var k, r :| 0 <= k < i && tk[k].a == p && r in all && Touches(env, r, p) && EligibleAt(env, r) <= tk[k].t;
      var j := LastExists(tk, i, p, k);
    }
  }

  lemma LastAfterTick(tk: seq<Tick>, i: nat, p: Pair, j: int)
    requires i < |tk| && LastBefore(tk, i + 1, p, j)
    ensures if p == tk[i].a then j == i else LastBefore(tk, i, p, j)
  {
  }

  lemma LiveGrows(env: Env, all: seq<Receipt>, tk: seq<Tick>, i: nat, p: Pair)
    requires i < |tk| && Live(env, all, tk, i, p)
    ensures Live(env, all, tk, i + 1, p)
  {
    var k, r :| 0 <= k < i && tk[k].a == p && r in all && Touches(env, r, p) && EligibleAt(env, r) <= tk[k].t;
    assert 0 <= k < i + 1;
  }

  function MarksAfter(env: Env, marks: map<Pair, real>, tick: Tick): map<Pair, real>
  {
    if tick.a in env.universe then marks[tick.a := tick.p] else marks
  }

  /** A kept tick does the same to both runs, and adds a pair held only where its tick may fill. */
  lemma KeptTickReads(env: Env, all: seq<Receipt>, tk: seq<Tick>, keep: set<int>, i: nat, rest: seq<Receipt>,
                      s: State, marks: map<Pair, real>)
    requires i < |tk| && i in keep && Related(env, all, tk, keep, i, rest, s, marks)
    requires NoEarlyCandidate(env, all, tk)
    requires Candidate(env, all, tk, i) ==> KeepsMarks(env, all, tk, i, keep)
    ensures var n, marks' := OnTick(env, s, tk[i]), MarksAfter(env, marks, tk[i]);
            && OnTick(env, RemarkState(s, marks), tk[i]) == RemarkState(n, marks')
            && n.book.marks == (if tk[i].a in env.universe then s.book.marks[tk[i].a := tk[i].p] else s.book.marks)
            && (forall p :: Holds(n.book, p) && !Holds(s.book, p) ==> p in env.universe && Live(env, all, tk, i + 1, p))
            && (s.eliminatedAt.Some? ==> n.pending == s.pending)
  {
    hide QueuesFresh, FillAt, Live, NoneSince, LastBefore;
    var tick := tk[i];
    var marks' := MarksAfter(env, marks, tick);
    TickKeepsQueues(env, all, tk, i, rest, s);
    var count := EligibleCount(PendingOf(s, tick.a), tick.t);
    if tick.a in env.universe && s.eliminatedAt.None? && count > 0 {
      assert Candidate(env, all, tk, i) && env.start <= tick.t;
      ReadAgrees(env, all, tk, keep, i, rest, s, marks);
      var s1 := s.(book := Mark(s.book, tick));
      assert AgreeOnHeld(s1.book, marks');
      assert RemarkState(s, marks).(book := Mark(Remark(s.book, marks), tick)) == RemarkState(s1, marks');
      FillReadsHeld(env, s1, marks', tick, count);
      assert PendingOf(RemarkState(s, marks), tick.a) == PendingOf(s, tick.a);
      CandidateIsLive(env, all, tk, i);
    }
  }

  /** A kept tick moves both runs alike. */
  lemma KeptTick(env: Env, all: seq<Receipt>, tk: seq<Tick>, keep: set<int>, i: nat, rest: seq<Receipt>,
                 s: State, marks: map<Pair, real>)
    requires i < |tk| && i in keep && Related(env, all, tk, keep, i, rest, s, marks)
    requires NoEarlyCandidate(env, all, tk)
    requires Candidate(env, all, tk, i) ==> KeepsMarks(env, all, tk, i, keep)
    ensures var n := OnTick(env, s, tk[i]);
            && OnTick(env, RemarkState(s, marks), tk[i]) == RemarkState(n, MarksAfter(env, marks, tk[i]))
            && Related(env, all, tk, keep, i + 1, rest, n, MarksAfter(env, marks, tk[i]))
  {
    hide QueuesFresh, OnTick, Live, NoneSince, Candidate, KeepsMarks;
    var tick := tk[i];
    var n := OnTick(env, s, tick);
    var marks' := MarksAfter(env, marks, tick);
    TickKeepsQueues(env, all, tk, i, rest, s);
    TickFrame(env, s, tick);
    KeptTickReads(env, all, tk, keep, i, rest, s, marks);
    forall p, j | LastBefore(tk, i + 1, p, j) && p in env.universe
      ensures Get(n.book.marks, p) == tk[j].p && (j in keep ==> Get(marks', p) == tk[j].p)
    {
      LastAfterTick(tk, i, p, j);
    }
    forall p | Holds(n.book, p) ensures p in env.universe && Live(env, all, tk, i + 1, p) {
      if Holds(s.book, p) {
        LiveGrows(env, all, tk, i, p);
      }
    }
  }

  lemma CandidateIsLive(env: Env, all: seq<Receipt>, tk: seq<Tick>, i: nat)
    requires Candidate(env, all, tk, i)
    ensures Live(env, all, tk, i + 1, tk[i].a)
  {
    var r :| r in all && Touches(env, r, tk[i].a) && EligibleAt(env, r) <= tk[i].t
             && NoneSince(tk, i, tk[i].a, EligibleAt(env, r));
    assert 0 <= i < i + 1 && tk[i].a == tk[i].a;
  }

  /** A dropped tick is no candidate, so the full run only marks it. */
  lemma DroppedTick(env: Env, all: seq<Receipt>, tk: seq<Tick>, keep: set<int>, i: nat, rest: seq<Receipt>,
                    s: State, marks: map<Pair, real>)
    requires i < |tk| && i !in keep && Related(env, all, tk, keep, i, rest, s, marks)
    requires NoEarlyCandidate(env, all, tk) && !Candidate(env, all, tk, i)
    ensures var n := OnTick(env, s, tk[i]);
            && RemarkState(s, marks) == RemarkState(n, marks)
            && Related(env, all, tk, keep, i + 1, rest, n, marks)
  {
    hide QueuesFresh, FillAt, Live, NoneSince, Candidate;
    var n := OnTick(env, s, tk[i]);
    TickKeepsQueues(env, all, tk, i, rest, s);
    forall p, j | LastBefore(tk, i + 1, p, j) && p in env.universe
      ensures Get(n.book.marks, p) == tk[j].p && (j in keep ==> Get(marks, p) == tk[j].p)
    {
      LastAfterTick(tk, i, p, j);
    }
    forall p | Holds(n.book, p) ensures p in env.universe && Live(env, all, tk, i + 1, p) {
      assert Holds(s.book, p);
      LiveGrows(env, all, tk, i, p);
    }
  }

  lemma ReceiptKeepsRelation(env: Env, all: seq<Receipt>, tk: seq<Tick>, keep: set<int>, i: nat, rs: seq<Receipt>,
                             s: State, marks: map<Pair, real>)
    requires i <= |tk| && rs != [] && ReceiptsSorted(rs) && rs[0] in all
    requires forall k :: 0 <= k < i ==> tk[k].t < rs[0].tRecv
    requires Related(env, all, tk, keep, i, rs, s, marks)
    ensures Related(env, all, tk, keep, i, rs[1..], Accept(env, s, rs[0]), marks)
  {
    hide Accept, Live, QueuesFresh, LastBefore;
    AcceptKeepsQueues(env, all, tk, i, rs, s);
    AcceptIgnoresMarks(env, s, marks, rs[0]);
    AcceptKeepsUniverse(env, s, rs[0]);
  }

  /** A receipt queues pairs of the universe only, and nothing on an eliminated book. */
  lemma AcceptKeepsUniverse(env: Env, s: State, r: Receipt)
    requires forall p :: p in s.pending ==> p in env.universe
    ensures var n := Accept(env, s, r);
            (forall p :: p in n.pending ==> p in env.universe) && n.eliminatedAt == s.eliminatedAt
            && (s.eliminatedAt.Some? ==> n.pending == s.pending)
  {
    hide GrossOf, ChangeAllowed, Declare, DayStart;
    var n := Accept(env, s, r);
    if n.pending != s.pending {
      forall p | p in n.pending ensures p in env.universe {
        if p !in s.pending {
          AllListed(env, r, p);
        }
      }
    }
  }

  lemma BoundaryKeepsRelation(env: Env, all: seq<Receipt>, tk: seq<Tick>, keep: set<int>, i: nat, rest: seq<Receipt>,
                              s: State, marks: map<Pair, real>, t: int)
    requires i <= |tk| && Related(env, all, tk, keep, i, rest, s, marks) && AgreeOnHeld(s.book, marks)
    ensures Related(env, all, tk, keep, i, rest, Boundary(env, s, t), marks)
  {
    hide Live, LastBefore, Boundary;
    BoundaryReadsHeld(env, s, marks, t);
    BoundaryPending(env, s, t);
  }

  /** A day end keeps what is pending, or an elimination clears it. */
  lemma BoundaryPending(env: Env, s: State, t: int)
    requires s.eliminatedAt.Some? ==> s.pending == map[]
    ensures var n := Boundary(env, s, t);
            (n.pending == s.pending || n.pending == map[]) && (n.eliminatedAt.Some? ==> n.pending == map[])
  {
    hide Unrealised, BalanceOf, Charged, EquityOf, CloseEach, ElimFloor, InOrder, WeekStart;
  }

  /** The run over a merge, by its first event. */
  lemma PlayMerge(env: Env, s: State, rs: seq<Receipt>, tk: seq<Tick>, b: int, end: int)
    ensures Play(env, s, Merge(rs, tk, b, end))
            == if b <= end && (rs == [] || b <= rs[0].tRecv) && (tk == [] || b <= tk[0].t)
               then Play(env, Boundary(env, s, b), Merge(rs, tk, b + DAY_MS, end))
               else if rs != [] && rs[0].tRecv <= end && (tk == [] || rs[0].tRecv <= tk[0].t)
               then Play(env, Accept(env, s, rs[0]), Merge(rs[1..], tk, b, end))
               else if tk != [] && tk[0].t <= end then Play(env, OnTick(env, s, tk[0]), Merge(rs, tk[1..], b, end))
               else s
  {
    hide Boundary, Accept, OnTick;
    PlayCons(env, s, DayEvent(b), Merge(rs, tk, b + DAY_MS, end));
    if rs != [] {
      PlayCons(env, s, ReceiptEvent(rs[0]), Merge(rs[1..], tk, b, end));
    }
    if tk != [] {
      PlayCons(env, s, TickEvent(tk[0]), Merge(rs, tk[1..], b, end));
    }
  }

  /** From related states, with the needed ticks kept, both runs end with the same result. */
  lemma {:induction false} Simulates(env: Env, all: seq<Receipt>, tk: seq<Tick>, keep: set<int>, end: int,
                                     rs: seq<Receipt>, i: nat, b: int, s: State, marks: map<Pair, real>)
    requires TicksSorted(tk) && ReceiptsSorted(rs) && (forall r :: r in rs ==> r in all)
    requires KeepsNeeded(env, all, tk, end, keep) && NoEarlyCandidate(env, all, tk)
    requires i <= |tk| && Related(env, all, tk, keep, i, rs, s, marks)
    requires b % DAY_MS == 0 && DayStart(env.start) < b
    requires forall k :: 0 <= k < i ==> tk[k].t < b && tk[k].t <= end && (rs != [] ==> tk[k].t < rs[0].tRecv)
    ensures ResultOf(Play(env, s, Merge(rs, tk[i..], b, end)))
            == ResultOf(Play(env, RemarkState(s, marks), Merge(rs, Sub(tk, keep, i), b, end)))
    decreases |rs| + |tk| - i, end - b
  {
    hide Related, Boundary, Accept, OnTick, ResultOf, Candidate, KeepsMarks, Play, Merge;
    var sub := Sub(tk, keep, i);
    var full := tk[i..];
    var t := RemarkState(s, marks);
    PlayMerge(env, s, rs, full, b, end);
    PlayMerge(env, t, rs, sub, b, end);
    if sub != [] {
      var h := SubElements(tk, keep, i, 0);
      assert full[0].t <= sub[0].t;
    }
    if b <= end && (rs == [] || b <= rs[0].tRecv) && (full == [] || b <= full[0].t) {
      assert CutAt(tk, i, b) by {
        forall k | i <= k < |tk| ensures b <= tk[k].t {
          assert tk[k] == full[k - i];
        }
      }
      ReadAgrees(env, all, tk, keep, i, rs, s, marks);
      BoundaryReadsHeld(env, s, marks, b);
      BoundaryKeepsRelation(env, all, tk, keep, i, rs, s, marks, b);
      Simulates(env, all, tk, keep, end, rs, i, b + DAY_MS, Boundary(env, s, b), marks);
    } else if rs != [] && rs[0].tRecv <= end && (full == [] || rs[0].tRecv <= full[0].t) {
      AcceptIgnoresMarks(env, s, marks, rs[0]);
      ReceiptKeepsRelation(env, all, tk, keep, i, rs, s, marks);
      Simulates(env, all, tk, keep, end, rs[1..], i, b, Accept(env, s, rs[0]), marks);
    } else if full != [] && full[0].t <= end {
      var n := OnTick(env, s, tk[i]);
      assert full[1..] == tk[i + 1..];
      if i in keep {
        KeptTick(env, all, tk, keep, i, rs, s, marks);
        assert sub[1..] == Sub(tk, keep, i + 1);
        Simulates(env, all, tk, keep, end, rs, i + 1, b, n, MarksAfter(env, marks, tk[i]));
      } else {
        DroppedTick(env, all, tk, keep, i, rs, s, marks);
        Simulates(env, all, tk, keep, end, rs, i + 1, b, n, marks);
      }
    } else {
      assert CutAt(tk, i, end + 1) by {
        forall k | i <= k < |tk| ensures end + 1 <= tk[k].t {
          assert tk[i] == full[0];
        }
      }
      ReadAgrees(env, all, tk, keep, i, rs, s, marks);
      SameResult(s, marks);
    }
  }

  lemma InitRelated(env: Env, rs: seq<Receipt>, tk: seq<Tick>, keep: set<int>)
    ensures Related(env, rs, tk, keep, 0, rs, Init, map[])
  {
  }

  /** Every sub-stream that keeps the needed ticks replays to the same result as the whole stream. */
  lemma SubStreamIsExact(env: Env, rs: seq<Receipt>, tk: seq<Tick>, keep: set<int>, end: int)
    requires TicksSorted(tk) && ReceiptsSorted(rs)
    requires KeepsNeeded(env, rs, tk, end, keep) && NoEarlyCandidate(env, rs, tk)
    ensures ResultOf(Run(env, rs, Sub(tk, keep, 0), end)) == ResultOf(Run(env, rs, tk, end))
  {
    hide KeepsNeeded, NoEarlyCandidate, Related, Play, Merge, ResultOf;
    InitRelated(env, rs, tk, keep);
    assert tk[0..] == tk;
    assert RemarkState(Init, map[]) == Init;
    var b := DayStart(env.start) + DAY_MS;
    assert b % DAY_MS == 0;
    Simulates(env, rs, tk, keep, end, rs, 0, b, Init, map[]);
  }
}
