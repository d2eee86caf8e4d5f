/**
 Where the exactness of the thinning stops. A replay that starts inside a UTC day, or ends inside a tick
 window before its last millisecond, has streams for which the thinned replay differs from the full one.
 */
module ThinningLimits {
  import opened Wrappers
  import opened Sums
  import opened AgentBooks
  import opened BookRules
  import opened Sorting
  import opened TickSimulation
  import opened TickThinning
  import opened TickShards
  import opened BookReplay
  import opened ThinRange
  import opened ThinnedReplay

  function BaseEnv(start: int): Env
  {
    Env(map[0 := "crypto"], RULES_V1, None, start)
  }

  /** What a pass over the shards from `start` to `end` may read. */
  ghost predicate Readable(start: int, end: int, tk: seq<Tick>)
  {
    Ordered(TickLeq, tk) && forall k :: 0 <= k < |tk| ==> DayStart(start) <= tk[k].t < ReadEnd(DayStart(start), end)
  }

  /** The slice of the union thin of one account's receipts. */
  ghost function Thinned(env: Env, rs: seq<Receipt>, tk: seq<Tick>, end: int): seq<Tick>
  {
    SliceStream(env, rs, ThinStream(env.rules.fillDelay, rs, TouchedStream(env, rs, tk)), end)
  }

  ghost predicate ExactOn(env: Env, rs: seq<Receipt>, tk: seq<Tick>, end: int)
  {
    ResultOf(Run(env, rs, Thinned(env, rs, tk, end), end)) == ResultOf(Run(env, rs, tk, end))
  }

  /** Exact for every stream a pass may read and every receipt log. */
  ghost predicate ExactAlways(start: int, end: int)
  {
    forall rs, tk :: ReceiptsSorted(rs) && Readable(start, end, tk) ==> ExactOn(BaseEnv(start), rs, tk, end)
  }

  // ---------------------------------------------------------------- one receipt, three ticks of one pair

  function Buy(t: int): Receipt
  {
    Receipt(0, 1, t, Dict([(0, Lev(0.25))]))
  }

  function Print(t: int, p: Price): Tick
  {
    Tick(0, t, p, None, None)
  }

  lemma BuyKeys(t: int)
    ensures Keys(Buy(t)) == {0}
  {
    assert (0, Lev(0.25)) in Buy(t).targets.entries;
  }

  /** Three ticks of one day, the receipt eligible by the first: the middle one is dropped. */
  lemma MiddleIsDropped(start: int, r: Receipt, t0: int, t1: int, t2: int, p0: Price, p1: Price, p2: Price)
    requires r == Buy(start - 3001) && start - 1 <= t0 < t1 <= t2
    requires DayStart(t0) == DayStart(t1) == DayStart(t2)
    ensures var env := BaseEnv(start);
            var tk := [Print(t0, p0), Print(t1, p1), Print(t2, p2)];
            ThinStream(3000, [r], TouchedStream(env, [r], tk)) == [Print(t0, p0), Print(t2, p2)]
  {
    hide DayStart;
    var env := BaseEnv(start);
    var tk := [Print(t0, p0), Print(t1, p1), Print(t2, p2)];
    BuyKeys(start - 3001);
    AllTouched(env, r, tk);
    DueOnce(start);
    assert NotCandidate(start, r, tk, 1) && NotCandidate(start, r, tk, 2) by {
      LaterNotCandidate(start, r, tk, 1);
      LaterNotCandidate(start, r, tk, 2);
    }
    assert FillCandidate(3000, [r], tk, 0) by {
      assert FirstOfDay(tk, 0);
    }
    assert Wanted(3000, [r], tk, 0) by {
      assert CandidateTime(3000, [r], tk, tk[0].t);
    }
    assert Wanted(3000, [r], tk, 2) by {
      assert LastOfDay(tk, 2);
    }
    assert !Wanted(3000, [r], tk, 1) by {
      assert !LastOfDay(tk, 1) by {
        assert tk[2].a == tk[1].a;
      }
      forall i ensures !MarksGroup(3000, [r], tk, 1, i) {
      }
    }
    var keep := WantedIndices(3000, [r], tk);
    PickTwo(tk, keep);
  }

  ghost predicate NotCandidate(start: int, r: Receipt, tk: seq<Tick>, i: int)
  {
    !FillCandidate(3000, [r], tk, i)
  }

  lemma DueOnce(start: int)
    ensures var rs := [Buy(start - 3001)]; forall p, e :: Due(3000, rs, p, e) <==> p == 0 && e == start - 1
  {
    BuyKeys(start - 3001);
    assert Buy(start - 3001) in [Buy(start - 3001)];
  }

  lemma LaterNotCandidate(start: int, r: Receipt, tk: seq<Tick>, i: int)
    requires r == Buy(start - 3001) && |tk| == 3 && 1 <= i < 3
    requires forall k :: 0 <= k < 3 ==> tk[k].a == 0 && start - 1 <= tk[k].t && DayStart(tk[k].t) == DayStart(tk[0].t)
    ensures NotCandidate(start, r, tk, i)
  {
    DueOnce(start);
    assert tk[0].a == tk[i].a;
    assert !FirstOfDay(tk, i);
    assert !NoneSince(tk, i, 0, start - 1);
  }

  lemma AllTouched(env: Env, r: Receipt, tk: seq<Tick>)
    requires |tk| == 3 && Keys(r) == {0} && 0 in env.universe
    requires forall k :: 0 <= k < 3 ==> tk[k].a == 0 && r.tRecv < tk[k].t
    ensures TouchedStream(env, [r], tk) == tk
  {
    var keep := TouchedIndices(env, [r], tk);
    forall k | 0 <= k < 3 ensures k in keep {
      assert r in [r] && Touches(env, r, tk[k].a);
      assert tk[k].t < DayStart(tk[k].t) + DAY_MS;
    }
    assert Sub(tk, keep, 3) == [];
    assert Sub(tk, keep, 2) == [tk[2]];
    assert Sub(tk, keep, 1) == [tk[1], tk[2]];
    assert Sub(tk, keep, 0) == [tk[0], tk[1], tk[2]] == tk;
  }

  lemma PickTwo(tk: seq<Tick>, keep: set<int>)
    requires |tk| == 3 && 0 in keep && 1 !in keep && 2 in keep
    ensures Sub(tk, keep, 0) == [tk[0], tk[2]]
  {
    assert Sub(tk, keep, 3) == [];
    assert Sub(tk, keep, 2) == [tk[2]];
    assert Sub(tk, keep, 1) == [tk[2]];
  }

  // ---------------------------------------------------------------- the first fill of a fresh book

  function Waiting(t: int): State
  {
    Init.(lastSeq := Some(1), changesByDay := map[DayStart(t) := 1], declared := map[0 := 0.25],
          pending := map[0 := [Pend(t + 3000, 0.25, 1)]])
  }

  lemma BuyIsTaken(start: int, t: int)
    ensures Accept(BaseEnv(start), Init, Buy(t)) == Waiting(t)
  {
    var env, r := BaseEnv(start), Buy(t);
    var es := r.targets.entries;
    assert es[1..] == [] && es[..0] == [];
    assert FirstBadEntry(env, es).None?;
    assert AsMap(es[..0]) == map[];
    assert AsMap(es) == map[0 := 0.25];
    var m: map<Pair, real> := map[] + AsMap(es);
    assert m == map[0 := 0.25];
    assert GrossOf(m) == 0.25 by {
      assert m.Keys == {0};
      SumTake(m.Keys, AbsTerm(m), 0);
      assert m.Keys - {0} == {};
    }
    var changed := Changed(AsMap(es), map[]);
    assert changed == map[0 := 0.25];
    assert 0 in changed;
    assert Declare(map[], changed) == map[0 := 0.25];
    var queued := Enqueue(map[], changed, r, 3000);
    var q: seq<Pend> := [Pend(t + 3000, 0.25, 1)];
    assert queued.Keys == {0};
    assert Queue(map[], 0) == [] && queued[0] == [] + q == q;
    assert queued == map[0 := q];
  }

  /** An empty book with the bought pair still waiting. */
  predicate Idle(s: State, t: int)
  {
    s.book.qty == map[] && s.book.avg == map[] && s.book.realised == s.book.fees == s.book.carry == 0.0
    && s.pending == map[0 := [Pend(t + 3000, 0.25, 1)]] && s.eliminatedAt.None? && s.ath == 1.0 && s.fills == []
  }

  lemma EmptyEquity(b: Book)
    requires b.qty == map[]
    ensures Unrealised(b) == 0.0 && EquityOf(b) == BalanceOf(b)
  {
    assert b.qty.Keys == {};
  }

  /** The first tick at or after the eligible time fills at its own price. */
  lemma FirstFill(start: int, s: State, t: int, tick: Tick)
    requires Idle(s, t) && tick.a == 0 && tick.b.None? && t + 3000 <= tick.t && start <= tick.t
    ensures var n := OnTick(BaseEnv(start), s, tick);
            && |n.fills| == 1 && n.fills[0].px == tick.p
            && n.pending == map[] && n.eliminatedAt.None?
            && n.book.qty.Keys == {0} && n.book.qty[0] != 0.0 && Get(n.book.marks, 0) == tick.p
  {
    var env := BaseEnv(start);
    var q := PendingOf(s, 0);
    assert q == [Pend(t + 3000, 0.25, 1)] && q[1..] == [];
    assert EligibleCount(q[1..], tick.t) == 0;
    assert EligibleCount(q, tick.t) == 1;
    var s1 := s.(book := Mark(s.book, tick));
    EmptyEquity(s1.book);
    var dq := Desired(0.25, 1.0, tick.p);
    DesiredPositive(tick.p);
    assert Quote(tick, 0.0) == (tick.p, tick.p);
    hide Desired, Fee, Averaged, FeeRate, EquityOf, EligibleCount;
    var f := FillAt(env, s1, tick, 1);
    assert EquityOf(s1.book) == 1.0;
    assert f.book == Trade(s1.book, 0, dq, tick.p, FeeRate(env, 0));
    assert f.book.qty == map[0 := 0.0 + dq];
  }

  lemma DesiredPositive(p: Price)
    ensures Desired(0.25, 1.0, p) > 0.0
  {
  }

  lemma MarkTick(start: int, s: State, tick: Tick)
    requires s.pending == map[] || tick.t < start
    requires tick.a == 0
    ensures OnTick(BaseEnv(start), s, tick) == s.(book := Mark(s.book, tick))
  {
    assert EligibleCount([], tick.t) == 0;
  }

  /** Fills already recorded stay. */
  lemma {:induction false} FillsGrow(env: Env, s: State, es: seq<Event>)
    ensures s.fills <= Play(env, s, es).fills
    decreases |es|
  {
    hide Accept, Boundary, OnTick;
    if es != [] {
      match es[0]
      case ReceiptEvent(r) => AcceptFrame(env, s, r);
      case DayEvent(b) => BoundaryFrame(env, s, b);
      case TickEvent(tick) => TickFills(env, s, tick);
    }
    if es != [] {
      FillsGrow(env, Step(env, s, es[0]), es[1..]);
    }
  }

  lemma TickFills(env: Env, s: State, tick: Tick)
    ensures s.fills <= OnTick(env, s, tick).fills
  {
    hide EquityOf, Desired, Quote, TradedTo;
  }

  // ---------------------------------------------------------------- starting inside a day

  /** A replay that starts after midnight: the tick just before the start is the first since the eligible time,
      so the tick that really fills is dropped and a later one fills instead. */
  lemma LateStartIsNotExact(start: int, end: int)
    requires start < end && start % DAY_MS != 0
    ensures var tk := [Print(start - 1, 1.0), Print(start, 1.0), Print(start, 2.0)];
            Readable(start, end, tk) && !ExactOn(BaseEnv(start), [Buy(start - 3001)], tk, end)
  {
    var env, r := BaseEnv(start), Buy(start - 3001);
    var a, b, c := Print(start - 1, 1.0), Print(start, 1.0), Print(start, 2.0);
    var tk := [a, b, c];
    LateStartReadable(start, end);
    SameDayBefore(start);
    MiddleIsDropped(start, r, start - 1, start, start, 1.0, 1.0, 2.0);
    SliceKeepsBoth(start, end, r, a, c);
    FillsAtFirstTick(start, end, [a, b, c]);
    FillsAtFirstTick(start, end, [a, c]);
    hide Run, Thinned;
    assert ResultOf(Run(env, [r], [a, b, c], end)).fills[0].px == 1.0;
    assert ResultOf(Run(env, [r], [a, c], end)).fills[0].px == 2.0;
    ThinnedIs(env, r, tk, end);
  }

  lemma ThinnedIs(env: Env, r: Receipt, tk: seq<Tick>, end: int)
    ensures Thinned(env, [r], tk, end)
            == SliceStream(env, [r], ThinStream(env.rules.fillDelay, [r], TouchedStream(env, [r], tk)), end)
  {
  }

  lemma SameDayBefore(start: int)
    requires start % DAY_MS != 0
    ensures DayStart(start - 1) == DayStart(start) <= start - 1
  {
  }

  lemma LateStartReadable(start: int, end: int)
    requires start < end && start % DAY_MS != 0
    ensures Readable(start, end, [Print(start - 1, 1.0), Print(start, 1.0), Print(start, 2.0)])
  {
    SameDayBefore(start);
    ReadEndCovers(DayStart(start), end);
  }

  lemma {:induction false} ReadEndCovers(w: int, end: int)
    ensures end <= ReadEnd(w, end)
    decreases end - w
  {
    if w < end {
      ReadEndCovers(w + WINDOW_MS, end);
    }
  }

  lemma SliceKeepsBoth(start: int, end: int, r: Receipt, a: Tick, c: Tick)
    requires start < end && r == Buy(start - 3001) && a == Print(start - 1, 1.0) && c == Print(start, 2.0)
    ensures SliceStream(BaseEnv(start), [r], [a, c], end) == [a, c]
  {
    var env, tk := BaseEnv(start), [a, c];
    BuyKeys(start - 3001);
    assert r in [r] && Touches(env, r, 0);
    assert TouchedBy(env, [r], 0);
    assert FillTime(3000, [r], tk, end, start - 1) by {
      assert NoneSince(tk, 0, 0, start - 1);
      assert r in [r] && tk[0].t == start - 1 && tk[0].a in Keys(r) && FirstSince(tk, 0, r.tRecv + 3000);
    }
    assert Selected(env, [r], tk, end, 0);
    assert MarkTime(env, [r], tk, end, end + 1) && AtLastTimeBefore(tk, 1, end + 1);
    assert Selected(env, [r], tk, end, 1);
    var keep := SelectedIndices(env, [r], tk, end);
    assert 0 in keep && 1 in keep;
    assert Sub(tk, keep, 2) == [];
    assert Sub(tk, keep, 1) == [c];
    assert Sub(tk, keep, 0) == [a, c];
  }

  /** With one tick before the start and the rest from it on, the second tick fills. */
  lemma FillsAtFirstTick(start: int, end: int, tk: seq<Tick>)
    requires start < end && |tk| >= 2 && tk[0] == Print(start - 1, 1.0)
    requires tk[1].a == 0 && tk[1].b.None? && tk[1].t == start
    requires start % DAY_MS != 0
    ensures var s := Run(BaseEnv(start), [Buy(start - 3001)], tk, end); |s.fills| > 0 && s.fills[0].px == tk[1].p
  {
    hide Accept, OnTick, Boundary, EligibleCount;
    var env, r := BaseEnv(start), Buy(start - 3001);
    var b := DayStart(start) + DAY_MS;
    RunIsRunFrom(env, [r], tk, end);
    RunReceipt(env, Init, [r], tk, b, end);
    assert [r][1..] == [];
    BuyIsTaken(start, r.tRecv);
    var s := Waiting(r.tRecv);
    RunTick(env, s, [], tk, b, end);
    MarkTick(start, s, tk[0]);
    var s1 := s.(book := Mark(s.book, tk[0]));
    assert tk[1..][0] == tk[1];
    RunTick(env, s1, [], tk[1..], b, end);
    FirstFill(start, s1, r.tRecv, tk[1]);
    var s2 := OnTick(env, s1, tk[1]);
    FillsGrow(env, s2, Merge([], tk[1..][1..], b, end));
  }

  // ---------------------------------------------------------------- ending inside a window

  /** A replay that ends inside a tick window: a later tick of the window, read but never replayed, takes the
      place of the last mark before the end. */
  lemma EarlyEndIsNotExact(start: int, end: int)
    requires start < end && start % DAY_MS == 0
    requires end % WINDOW_MS != 0 && end % WINDOW_MS != WINDOW_MS - 1
    ensures var tk := [Print(DayStart(end), 1.0), Print(end, 2.0), Print(end + 1, 1.0)];
            Readable(start, end, tk) && !ExactOn(BaseEnv(start), [Buy(start - 3001)], tk, end)
  {
    var env, r := BaseEnv(start), Buy(start - 3001);
    var a, b, c := Print(DayStart(end), 1.0), Print(end, 2.0), Print(end + 1, 1.0);
    var tk := [a, b, c];
    EarlyEndReadable(start, end);
    InsideWindow(start, end);
    MiddleIsDropped(start, r, DayStart(end), end, end + 1, 1.0, 2.0, 1.0);
    SliceKeepsFirst(start, end, r, a, c);
    HeldAtLastTick(start, end, [a, b, c], 2);
    HeldAtLastTick(start, end, [a], 1);
    hide Run, Thinned;
    assert ResultOf(Run(env, [r], [a, b, c], end)).positions[0].mark == 2.0;
    assert ResultOf(Run(env, [r], [a], end)).positions[0].mark == 1.0;
    ThinnedIs(env, r, tk, end);
  }

  lemma WindowBeyond(start: int, end: int)
    requires start < end && start % DAY_MS == 0
    requires end % WINDOW_MS != 0 && end % WINDOW_MS != WINDOW_MS - 1
    ensures end + 1 < ReadEnd(start, end)
  {
    assert start == start / DAY_MS * 480 * WINDOW_MS;
    ReadEndOnGrid(start, end);
    hide ReadEnd;
    NextGridPoint(end, ReadEnd(start, end));
  }

  lemma NextGridPoint(end: int, e: int)
    requires e % WINDOW_MS == 0 && end <= e && end % WINDOW_MS != 0 && end % WINDOW_MS != WINDOW_MS - 1
    ensures end + 1 < e
  {
  }

  lemma NotMidnight(end: int)
    requires end % WINDOW_MS != 0 && end % WINDOW_MS != WINDOW_MS - 1
    ensures end % DAY_MS != 0 && end % DAY_MS != DAY_MS - 1
  {
    var q, m := end / WINDOW_MS, end % WINDOW_MS;
    var d, r := end / DAY_MS, end % DAY_MS;
    var x := 480 * d - q;
    assert end == q * WINDOW_MS + m && end == d * DAY_MS + r;
    assert m == x * WINDOW_MS + r;
    assert x * WINDOW_MS + DAY_MS - 1 == (x + 479) * WINDOW_MS + WINDOW_MS - 1;
  }

  lemma InsideWindow(start: int, end: int)
    requires start < end && start % DAY_MS == 0
    requires end % WINDOW_MS != 0 && end % WINDOW_MS != WINDOW_MS - 1
    ensures start <= DayStart(end) < end && DayStart(DayStart(end)) == DayStart(end) == DayStart(end + 1)
    ensures DayStart(start) == start
    ensures end + 1 < ReadEnd(start, end)
  {
    WindowBeyond(start, end);
    NotMidnight(end);
    hide ReadEnd;
  }

  lemma EarlyEndReadable(start: int, end: int)
    requires start < end && start % DAY_MS == 0
    requires end % WINDOW_MS != 0 && end % WINDOW_MS != WINDOW_MS - 1
    ensures Readable(start, end, [Print(DayStart(end), 1.0), Print(end, 2.0), Print(end + 1, 1.0)])
  {
    InsideWindow(start, end);
  }

  lemma SliceKeepsFirst(start: int, end: int, r: Receipt, a: Tick, c: Tick)
    requires start < end && start % DAY_MS == 0 && start <= DayStart(end) < end
    requires r == Buy(start - 3001) && a == Print(DayStart(end), 1.0) && c == Print(end + 1, 1.0)
    ensures SliceStream(BaseEnv(start), [r], [a, c], end) == [a]
  {
    hide DayStart;
    var env, tk := BaseEnv(start), [a, c];
    BuyKeys(start - 3001);
    assert r in [r] && Touches(env, r, 0);
    assert TouchedBy(env, [r], 0);
    assert FillTime(3000, [r], tk, end, tk[0].t) by {
      assert NoneSince(tk, 0, 0, start - 1);
      assert r in [r] && tk[0].a in Keys(r) && FirstSince(tk, 0, r.tRecv + 3000);
    }
    assert Selected(env, [r], tk, end, 0);
    assert !Selected(env, [r], tk, end, 1);
    var keep := SelectedIndices(env, [r], tk, end);
    assert 0 in keep && 1 !in keep;
    assert Sub(tk, keep, 2) == [];
    assert Sub(tk, keep, 1) == [];
    assert Sub(tk, keep, 0) == [a];
  }

  /** Day ends before the first tick leave an idle book idle. */
  lemma {:induction false} StaysIdle(start: int, s: State, t: int, tk: seq<Tick>, b: int, end: int) returns (n: State)
    requires Idle(s, t) && tk != [] && tk[0].t <= end && tk[0].t % DAY_MS == 0 && b % DAY_MS == 0 && b <= tk[0].t + DAY_MS
    ensures Idle(n, t)
    ensures RunFrom(BaseEnv(start), s, [], tk, b, end) == RunFrom(BaseEnv(start), n, [], tk, tk[0].t + DAY_MS, end)
    decreases tk[0].t + DAY_MS - b
  {
    hide RunFrom, Boundary;
    if b > tk[0].t {
      NextDay(b, tk[0].t);
      n := s;
    } else {
      RunBoundary(BaseEnv(start), s, [], tk, b, end);
      IdleBoundary(start, s, t, b);
      n := StaysIdle(start, Boundary(BaseEnv(start), s, b), t, tk, b + DAY_MS, end);
    }
  }

  lemma NextDay(b: int, t: int)
    requires b % DAY_MS == 0 && t % DAY_MS == 0 && t < b <= t + DAY_MS
    ensures b == t + DAY_MS
  {
  }

  lemma IdleBoundary(start: int, s: State, t: int, b: int)
    requires Idle(s, t)
    ensures Idle(Boundary(BaseEnv(start), s, b), t)
  {
    var env := BaseEnv(start);
    assert HeldSet(s.book) == {};
    assert CarryDue(env, s.book, b) == 0.0;
    EmptyEquity(Charged(env, s.book, b));
    assert ElimFloor(1.0, RULES_V1) < 1.0;
  }

  /** From an idle book whose first tick is at `tk[0]`: the fill, then marks through tick `n - 1`. */
  lemma HoldsAfterFill(start: int, end: int, s: State, t: int, tk: seq<Tick>, n: nat, b: int)
    requires 1 <= n <= |tk| && n <= 2
    requires Idle(s, t) && start <= tk[0].t && t + 3000 <= tk[0].t <= end < b && tk[0].a == 0 && tk[0].b.None?
    requires n == 2 ==> tk[1].a == 0 && tk[1].t == end
    requires n < |tk| ==> tk[n].t > end
    ensures var res := ResultOf(RunFrom(BaseEnv(start), s, [], tk, b, end));
            0 in res.positions && res.positions[0].mark == tk[n - 1].p
  {
    hide OnTick, RunFrom, EquityOf;
    var env := BaseEnv(start);
    RunTick(env, s, [], tk, b, end);
    FirstFill(start, s, t, tk[0]);
    var s2 := OnTick(env, s, tk[0]);
    var rest := tk[1..];
    if n == 1 {
      RunDone(env, s2, [], rest, b, end);
      assert 0 in Positions(s2.book);
    } else {
      RunTick(env, s2, [], rest, b, end);
      MarkTick(start, s2, rest[0]);
      var s3 := OnTick(env, s2, rest[0]);
      RunDone(env, s3, [], rest[1..], b, end);
      assert 0 in Positions(s3.book);
    }
  }

  /** The run ends with the pair held and marked at tick `n - 1`. */
  lemma HeldAtLastTick(start: int, end: int, tk: seq<Tick>, n: nat)
    requires start < end && start % DAY_MS == 0 && start <= DayStart(end) < end
    requires 1 <= n <= |tk| && n <= 2 && tk[0] == Print(DayStart(end), 1.0)
    requires n == 2 ==> tk[1].a == 0 && tk[1].t == end
    requires n < |tk| ==> tk[n].t > end
    ensures var res := ResultOf(Run(BaseEnv(start), [Buy(start - 3001)], tk, end));
            0 in res.positions && res.positions[0].mark == tk[n - 1].p
  {
    hide Accept, RunFrom, ResultOf, Run;
    var env, r := BaseEnv(start), Buy(start - 3001);
    var s0 := DayStart(end);
    assert s0 % DAY_MS == 0 && end < s0 + DAY_MS;
    RunIsRunFrom(env, [r], tk, end);
    var b := DayStart(start) + DAY_MS;
    RunReceipt(env, Init, [r], tk, b, end);
    assert [r][1..] == [];
    BuyIsTaken(start, r.tRecv);
    var s1 := StaysIdle(start, Waiting(r.tRecv), r.tRecv, tk, b, end);
    HoldsAfterFill(start, end, s1, r.tRecv, tk, n, s0 + DAY_MS);
  }

  // ---------------------------------------------------------------- both directions

  lemma AlignedIsExactOn(start: int, end: int, rs: seq<Receipt>, tk: seq<Tick>)
    requires start < end && Aligned(start, end) && ReceiptsSorted(rs) && Readable(start, end, tk)
    ensures ExactOn(BaseEnv(start), rs, tk, end)
  {
    AlignedStart(start, end);
    assert start % WINDOW_MS == 0 by {
      assert start == start / DAY_MS * 480 * WINDOW_MS;
    }
    ReadEndOnGrid(start, end);
    AlignedReadEnd(ReadEnd(start, end), end);
    hide Run, ResultOf, ReadEnd, DayStart, ThinStream, TouchedStream, SliceStream;
    ThinnedReplayIsExact(BaseEnv(start), rs, rs, tk, end);
  }

  /** The thinned replay is exact on every readable stream and every receipt log if and only if the replay
      starts at a UTC midnight and ends at the end of a tick window. */
  lemma ExactIffAligned(start: int, end: int)
    requires start < end
    ensures ExactAlways(start, end) <==> Aligned(start, end)
  {
    hide ExactOn, Readable;
    if Aligned(start, end) {
      forall rs, tk | ReceiptsSorted(rs) && Readable(start, end, tk) ensures ExactOn(BaseEnv(start), rs, tk, end) {
        AlignedIsExactOn(start, end, rs, tk);
      }
    } else {
      var rs := [Buy(start - 3001)];
      assert ReceiptsSorted(rs);
      if start % DAY_MS != 0 {
        LateStartIsNotExact(start, end);
      } else {
        EarlyEndIsNotExact(start, end);
      }
    }
  }
}
