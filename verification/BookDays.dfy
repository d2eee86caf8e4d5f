/**
 What the day and week rows of a replay say (sn89_signals/agent_books.py:297-306, 412-444), in plain arithmetic: the
 carry charged, the equity a day is judged by, the value a week is measured by, and the activity it is paid for.
 */
module BookDays {
  import opened Wrappers
  import opened Sums
  import opened AgentBooks
  import opened BookRules
  import opened BookFills
  import opened TickSimulation

  // ---------------------------------------------------------------- marks

  /** Nothing but a tick of a listed pair moves its mark. */
  lemma MarkMoves(env: Env, s: State, e: Event, p: Pair)
    ensures Get(Step(env, s, e).book.marks, p)
            == if e.TickEvent? && e.tick.a == p && p in env.universe then e.tick.p else Get(s.book.marks, p)
  {
    match e
    case DayEvent(b) => DayKeepsMarks(env, s, b);
    case ReceiptEvent(r) => AcceptFrame(env, s, r);
    case TickEvent(tick) => TickMarks(env, s, tick);
  }

  lemma TickMarks(env: Env, s: State, tick: Tick)
    ensures OnTick(env, s, tick).book.marks == if tick.a in env.universe then s.book.marks[tick.a := tick.p] else s.book.marks
  {
    hide EquityOf, Quote, Desired;
  }

  lemma {:induction false} CloseKeepsMarks(env: Env, b: Book, pairs: seq<Pair>)
    ensures CloseEach(env, b, pairs).marks == b.marks
    decreases |pairs|
  {
    hide FeeRate, Fee;
    if pairs != [] {
      CloseKeepsMarks(env, Trade(b, pairs[0], -Get(b.qty, pairs[0]), Get(b.marks, pairs[0]), FeeRate(env, pairs[0])), pairs[1..]);
    }
  }

  lemma DayKeepsMarks(env: Env, s: State, b: int)
    ensures Boundary(env, s, b).book.marks == s.book.marks
  {
    hide EquityOf, BalanceOf, Unrealised, CloseEach, CarryDue, ElimFloor, InOrder, WeekStart;
    var charged := Charged(env, s.book, b);
    CloseKeepsMarks(env, charged, InOrder(HeldSet(charged)));
  }

  /** A pair's mark is the mid of its last tick. */
  lemma {:induction false} MarkIsLastMid(env: Env, es: seq<Event>, i: nat, p: Pair)
    requires i < |es| && es[i].TickEvent? && es[i].tick.a == p && p in env.universe
    requires forall k :: i < k < |es| ==> !(es[k].TickEvent? && es[k].tick.a == p)
    ensures Get(Play(env, Init, es).book.marks, p) == es[i].tick.p
    decreases |es|
  {
    hide Step;
    var last := |es| - 1;
    PlayLast(env, Init, es);
    MarkMoves(env, Play(env, Init, es[..last]), es[last], p);
    if i < last {
      MarkIsLastMid(env, es[..last], i, p);
    }
  }

  // ---------------------------------------------------------------- a week's row

  /** The open profit, pair by pair. */
  function OpenProfit(b: Book): Pair -> real
  {
    (p: Pair) => Get(b.qty, p) * (Get(b.marks, p) - Get(b.avg, p))
  }

  lemma UnrealisedIs(b: Book)
    ensures Unrealised(b) == Sum(b.qty.Keys, OpenProfit(b))
  {
    SumCongruent(b.qty.Keys, OpenPnl(b), OpenProfit(b));
  }

  /** The value a week is measured by: with the open profit on the equity basis, without it on the balance basis. */
  function Measured(env: Env, row: WeekRow): real
  {
    if env.rules.basis == Equity then row.balance + row.unrealised else row.balance
  }

  /** The larger of two values. */
  predicate IsLarger(m: real, x: real, y: real)
  {
    x <= m && y <= m && (m == x || m == y)
  }

  /** A row written at Monday midnight `b`, between the states `s` and `o`. */
  ghost predicate WeekRowFor(env: Env, s: State, o: State, b: int, row: WeekRow)
  {
    && (b - 345_600_000) % 604_800_000 == 0 && row.weekStart == b - 604_800_000
    && row.balance == 1.0 + o.book.realised - o.book.fees - o.book.carry
    && row.unrealised == Sum(o.book.qty.Keys, OpenProfit(o.book))
    && row.prevHwm == s.hwm
    && IsLarger(o.hwm, row.prevHwm, Measured(env, row))
    && IsLarger(row.gain, 0.0, Measured(env, row) - row.prevHwm + (if row.unrealised < 0.0 then row.unrealised else 0.0))
    && (row.active <==> env.rules.minBuckets <= row.buckets)
    && (row.eliminated <==> o.eliminatedAt.Some? && o.eliminatedAt.value <= b)
    && (row.isPartial <==> row.weekStart < env.start)
    && row.paid == if row.active && !row.eliminated then row.gain else 0.0
  }

  /** The week of an elimination is that of the instant before it. */
  ghost predicate ElimWeekSet(s: State)
  {
    s.eliminatedAt.Some? ==> s.elimWeek == Some(WeekStart(s.eliminatedAt.value - 1))
  }

  lemma WeekEndRow(env: Env, d: State, b: int)
    requires ElimWeekSet(d)
    ensures var o := WeekEnd(env, d, b);
            && o.book == d.book && o.eliminatedAt == d.eliminatedAt && o.fills == d.fills && o.elimWeek == d.elimWeek
            && if (b - 345_600_000) % 604_800_000 == 0
               then |o.weeks| == |d.weeks| + 1 && o.weeks[..|d.weeks|] == d.weeks && WeekRowFor(env, d, o, b, o.weeks[|d.weeks|])
                    && o.weeks[|d.weeks|].buckets == |d.buckets| && o.buckets == {}
               else o == d
  {
    hide Unrealised, WeekStart, Sum, OpenProfit, ElimWeekSet;
    UnrealisedIs(d.book);
    if (b - MONDAY_OFFSET_MS) % WEEK_MS == 0 {
      DeadByThen(d, b);
    }
  }

  lemma DeadByThen(d: State, b: int)
    requires ElimWeekSet(d) && (b - MONDAY_OFFSET_MS) % WEEK_MS == 0
    ensures d.eliminatedAt.Some? && (d.elimWeek.None? || b - WEEK_MS >= d.elimWeek.value)
            <==> d.eliminatedAt.Some? && d.eliminatedAt.value <= b
  {
    hide WeekStart;
    if d.eliminatedAt.Some? {
      MondayAfter(d.eliminatedAt.value - 1, b);
    }
  }

  /** The week of an instant starts by a week before a Monday exactly when the instant is before that Monday. */
  lemma MondayAfter(t: int, monday: int)
    requires (monday - MONDAY_OFFSET_MS) % WEEK_MS == 0
    ensures WeekStart(t) <= monday - WEEK_MS <==> t < monday
  {
    var x, y := t - MONDAY_OFFSET_MS, monday - MONDAY_OFFSET_MS;
    assert y == y / WEEK_MS * WEEK_MS;
    WeekStartBounds(t);
    if t < monday {
      EarlierWeekStartsEarlier(t, monday);
    }
  }

  // ---------------------------------------------------------------- a day's row

  /** What the carry hook charges for a held pair: its notional at the mark. */
  function HookOn(env: Env, b: Book, t: int): Pair -> real
  {
    (p: Pair) => if env.carry.None? then 0.0 else (env.carry.value)(p, Get(b.qty, p) * Get(b.marks, p), t)
  }

  lemma CarryIs(env: Env, b: Book, t: int)
    ensures CarryDue(env, b, t) == Sum(HeldSet(b), HookOn(env, b, t))
  {
    SumCongruent(HeldSet(b), CarryTerm(env, b, t), HookOn(env, b, t));
  }

  /** The book with the day's carry charged on every pair that is held. */
  ghost predicate ChargedBy(env: Env, b: Book, c: Book, t: int)
  {
    c == b.(carry := c.carry) && c.carry == b.carry + Sum(HeldSet(b), HookOn(env, b, t))
  }

  /** The row of day end `t`: the equity after carry, judged against the peak before it. */
  ghost predicate DayRowFor(env: Env, s: State, d: State, t: int, row: DayRow)
  {
    exists charged: Book :: DayRowBy(env, s, d, t, row, charged)
  }

  ghost predicate DayRowBy(env: Env, s: State, d: State, t: int, row: DayRow, charged: Book)
  {
    && s.eliminatedAt.None? && row.t == t && row.ath == s.ath
    && ChargedBy(env, s.book, charged, t) && row.eodEquity == EquityOf(charged)
    && (row.eliminated <==> row.eodEquity < row.ath * (1.0 - env.rules.elimDrawdown) - env.rules.elimEps)
    && (if row.eliminated then d.eliminatedAt == Some(t) && d.ath == s.ath
        else d.eliminatedAt.None? && d.book == charged && IsLarger(d.ath, s.ath, row.eodEquity))
  }

  lemma DayEndRow(env: Env, s: State, t: int)
    requires ElimWeekSet(s)
    ensures var d := DayEnd(env, s, t);
            && d.weeks == s.weeks && d.hwm == s.hwm && d.buckets == s.buckets && d.fills == s.fills && ElimWeekSet(d)
            && if s.eliminatedAt.Some? then d == s
               else |d.daily| == |s.daily| + 1 && d.daily[..|s.daily|] == s.daily && DayRowFor(env, s, d, t, d.daily[|s.daily|])
  {
    hide CloseEach, InOrder, EquityOf, WeekStart, CarryDue;
    if s.eliminatedAt.None? {
      CarryIs(env, s.book, t);
      var d := DayEnd(env, s, t);
      assert DayRowBy(env, s, d, t, d.daily[|s.daily|], Charged(env, s.book, t));
    }
  }

  // ---------------------------------------------------------------- every row of a run

  lemma StepKeepsElimWeek(env: Env, s: State, e: Event)
    requires ElimWeekSet(s)
    ensures ElimWeekSet(Step(env, s, e))
  {
    hide DayEnd, WeekEnd, Accept, OnTick, ElimWeekSet;
    match e
    case DayEvent(b) =>
      DayEndRow(env, s, b);
      WeekEndRow(env, DayEnd(env, s, b), b);
      SameElimWeek(DayEnd(env, s, b), Boundary(env, s, b));
    case ReceiptEvent(r) =>
      AcceptFrame(env, s, r);
      SameElimWeek(s, Accept(env, s, r));
    case TickEvent(tick) =>
      TickFrame(env, s, tick);
      SameElimWeek(s, OnTick(env, s, tick));
  }

  lemma SameElimWeek(s: State, o: State)
    requires ElimWeekSet(s) && o.eliminatedAt == s.eliminatedAt && o.elimWeek == s.elimWeek
    ensures ElimWeekSet(o)
  {
  }

  lemma {:induction false} ElimWeekIsSet(env: Env, es: seq<Event>)
    ensures ElimWeekSet(Play(env, Init, es))
    decreases |es|
  {
    hide Step, ElimWeekSet;
    if es == [] {
      InitElimWeek();
    } else {
      PlayLast(env, Init, es);
      ElimWeekIsSet(env, es[..|es| - 1]);
      StepKeepsElimWeek(env, Play(env, Init, es[..|es| - 1]), es[|es| - 1]);
    }
  }

  lemma InitElimWeek()
    ensures ElimWeekSet(Init)
  {
  }

  /** What one event adds to the week rows. */
  ghost predicate AddsWeek(env: Env, s: State, o: State, e: Event)
  {
    || (o.weeks == s.weeks && o.hwm == s.hwm)
    || (e.DayEvent? && |o.weeks| == |s.weeks| + 1 && o.weeks[..|s.weeks|] == s.weeks && WeekRowFor(env, s, o, e.b, o.weeks[|s.weeks|]))
  }

  lemma StepAddsWeek(env: Env, s: State, e: Event)
    requires ElimWeekSet(s)
    ensures AddsWeek(env, s, Step(env, s, e), e)
  {
    hide DayEnd, WeekEnd, Accept, OnTick, ElimWeekSet, Sum, OpenProfit;
    match e
    case DayEvent(b) =>
      DayEndRow(env, s, b);
      WeekEndRow(env, DayEnd(env, s, b), b);
    case ReceiptEvent(r) => AcceptFrame(env, s, r);
    case TickEvent(tick) => TickFrame(env, s, tick);
  }

  /**
   Every week row of a run was written at a Monday midnight; its balance and open profit are those of the book there,
   the mark rises to the measured value of the basis or stays, and the row's gain, activity and payment follow from it.
   */
  lemma {:induction false} EveryWeekRow(env: Env, es: seq<Event>, k: nat) returns (i: nat)
    requires k < |Play(env, Init, es).weeks|
    ensures i < |es| && es[i].DayEvent? && |At(env, es, i).weeks| == k
    ensures WeekRowFor(env, At(env, es, i), At(env, es, i + 1), es[i].b, Play(env, Init, es).weeks[k])
    decreases |es|
  {
    hide Step, WeekRowFor, ElimWeekSet;
    var last := |es| - 1;
    var front := es[..last];
    AtFront(env, es, last);
    AtNext(env, es, last);
    var before := At(env, es, last);
    ElimWeekIsSet(env, front);
    StepAddsWeek(env, before, es[last]);
    if k == |before.weeks| {
      i := last;
    } else {
      i := EveryWeekRow(env, front, k);
      AtEarlier(env, es, front, i);
      AtEarlier(env, es, front, i + 1);
    }
  }

  /** What one event adds to the day rows. */
  ghost predicate AddsDay(env: Env, s: State, o: State, e: Event)
  {
    || o.daily == s.daily
    || (e.DayEvent? && |o.daily| == |s.daily| + 1 && o.daily[..|s.daily|] == s.daily && DayRowFor(env, s, o, e.b, o.daily[|s.daily|]))
  }

  lemma StepAddsDay(env: Env, s: State, e: Event)
    requires ElimWeekSet(s)
    ensures AddsDay(env, s, Step(env, s, e), e)
  {
    hide DayEnd, WeekEnd, Accept, OnTick, ElimWeekSet, EquityOf, ChargedBy, WeekRowFor;
    match e
    case DayEvent(b) =>
      var d, o := DayEnd(env, s, b), Boundary(env, s, b);
      DayEndRow(env, s, b);
      WeekEndRow(env, d, b);
      WeekKeepsDays(env, d, b);
      if s.eliminatedAt.None? {
        var charged :| DayRowBy(env, s, d, b, d.daily[|s.daily|], charged);
        assert DayRowBy(env, s, o, b, o.daily[|s.daily|], charged);
      }
    case ReceiptEvent(r) => AcceptFrame(env, s, r);
    case TickEvent(tick) => TickFrame(env, s, tick);
  }

  lemma WeekKeepsDays(env: Env, d: State, b: int)
    ensures WeekEnd(env, d, b).daily == d.daily && WeekEnd(env, d, b).ath == d.ath
  {
    hide Unrealised, BalanceOf;
  }

  /**
   Every day row of a run was written at its day end, on a book still alive, for the equity after the carry of the held
   pairs; the book is eliminated there exactly below the drawdown of the peak before, and the peak rises otherwise.
   */
  lemma {:induction false} EveryDayRow(env: Env, es: seq<Event>, k: nat) returns (i: nat)
    requires k < |Play(env, Init, es).daily|
    ensures i < |es| && es[i].DayEvent? && |At(env, es, i).daily| == k
    ensures DayRowFor(env, At(env, es, i), At(env, es, i + 1), es[i].b, Play(env, Init, es).daily[k])
    decreases |es|
  {
    hide Step, DayRowFor, ElimWeekSet;
    var last := |es| - 1;
    var front := es[..last];
    AtFront(env, es, last);
    AtNext(env, es, last);
    var before := At(env, es, last);
    ElimWeekIsSet(env, front);
    StepAddsDay(env, before, es[last]);
    if k == |before.daily| {
      i := last;
    } else {
      i := EveryDayRow(env, front, k);
      AtEarlier(env, es, front, i);
      AtEarlier(env, es, front, i + 1);
    }
  }

  // ---------------------------------------------------------------- the activity of a week

  /** The twelve-hour buckets in which there is a fill from `lo` on and before `hi`. */
  function FilledBuckets(fills: seq<Fill>, lo: int, hi: int): set<int>
  {
    set f | f in fills && lo <= f.t < hi :: f.t / 43_200_000
  }

  /** The fills are from the replay's start and before `b`, those of the week under way make up the buckets, and each
      week row counts those of its own week. */
  ghost predicate Bucketed(env: Env, s: State, b: int)
  {
    && (forall f :: f in s.fills ==> env.start <= f.t < b)
    && s.buckets == FilledBuckets(s.fills, WeekStart(b - 1), b)
    && (forall k :: 0 <= k < |s.weeks| ==> RowCounts(s, s.weeks[k]) && s.weeks[k].weekStart + WEEK_MS <= b - DAY_MS)
  }

  ghost predicate RowCounts(s: State, row: WeekRow)
  {
    row.buckets == |FilledBuckets(s.fills, row.weekStart, row.weekStart + 604_800_000)|
  }

  lemma WeekOfDay(b: int)
    requires b % DAY_MS == 0
    ensures WeekStart(b - 1) <= b - DAY_MS
    ensures WeekStart(b + DAY_MS - 1) == if (b - MONDAY_OFFSET_MS) % WEEK_MS == 0 then b else WeekStart(b - 1)
    ensures (b - MONDAY_OFFSET_MS) % WEEK_MS == 0 ==> WeekStart(b - 1) == b - WEEK_MS
  {
    var d := b / 86_400_000;
    DayOfWeek(d);
    var q, r := (d - 4) / 7, (d - 4) % 7;
    assert b == 86_400_000 * (7 * q + r) + 345_600_000;
    WeekStartIs(b - 1, if r == 0 then q - 1 else q);
    WeekStartIs(b + 86_400_000 - 1, q);
    Remainder(b - 345_600_000, q, 86_400_000 * r);
  }

  lemma Remainder(x: int, q: int, rest: int)
    requires x == 604_800_000 * q + rest && 0 <= rest < 604_800_000
    ensures x % 604_800_000 == rest
  {
  }

  lemma DayOfWeek(d: int)
    ensures d - 4 == 7 * ((d - 4) / 7) + (d - 4) % 7 && 0 <= (d - 4) % 7 < 7
  {
  }

  lemma WeekStartIs(t: int, q: int)
    requires 604_800_000 * q <= t - 345_600_000 < 604_800_000 * q + 604_800_000
    ensures WeekStart(t) == 604_800_000 * q + 345_600_000
  {
  }

  lemma SameBuckets(fills: seq<Fill>, lo: int, hi: int, later: int)
    requires hi <= later && forall f :: f in fills ==> f.t < hi
    ensures FilledBuckets(fills, lo, later) == FilledBuckets(fills, lo, hi)
  {
  }

  lemma NoBuckets(fills: seq<Fill>, lo: int, hi: int)
    requires forall f :: f in fills ==> f.t < lo
    ensures FilledBuckets(fills, lo, hi) == {}
  {
  }

  lemma MoreBuckets(fills: seq<Fill>, f: Fill, lo: int, hi: int)
    ensures FilledBuckets(fills + [f], lo, hi)
            == if lo <= f.t < hi then FilledBuckets(fills, lo, hi) + {f.t / 43_200_000} else FilledBuckets(fills, lo, hi)
  {
    assert forall x :: x in fills + [f] <==> x in fills || x == f;
  }

  lemma DayKeepsBuckets(env: Env, s: State, b: int)
    requires Bucketed(env, s, b) && b % DAY_MS == 0 && ElimWeekSet(s)
    ensures Bucketed(env, Boundary(env, s, b), b + DAY_MS)
  {
    hide DayEnd, WeekEnd, WeekStart, FilledBuckets, ElimWeekSet, WeekRowFor, Sum, OpenProfit;
    var d, o := DayEnd(env, s, b), Boundary(env, s, b);
    DayEndRow(env, s, b);
    WeekEndRow(env, d, b);
    WeekOfDay(b);
    if (b - MONDAY_OFFSET_MS) % WEEK_MS == 0 {
      RowSaysMonday(env, d, o, b, o.weeks[|s.weeks|]);
      NoBuckets(s.fills, b, b + DAY_MS);
      SameFillsSameRows(s, o);
    } else {
      SameBuckets(s.fills, WeekStart(b - 1), b, b + DAY_MS);
      SameFillsSameRows(s, o);
    }
  }

  lemma RowSaysMonday(env: Env, s: State, o: State, b: int, row: WeekRow)
    requires WeekRowFor(env, s, o, b, row)
    ensures row.weekStart == b - WEEK_MS
  {
    hide Sum, OpenProfit;
  }

  lemma SameFillsSameRows(s: State, o: State)
    requires s.fills == o.fills
    ensures forall row :: RowCounts(s, row) == RowCounts(o, row)
  {
    hide FilledBuckets;
  }

  /** A tick records at most one fill, in its own bucket. */
  lemma TickBuckets(env: Env, s: State, tick: Tick)
    ensures var o := OnTick(env, s, tick);
            || (o.fills == s.fills && o.buckets == s.buckets)
            || (o.buckets == s.buckets + {tick.t / 43_200_000} && env.start <= tick.t
                && |o.fills| == |s.fills| + 1 && o.fills == s.fills + [o.fills[|s.fills|]] && o.fills[|s.fills|].t == tick.t)
  {
    hide EquityOf, Quote, Desired, TradedTo;
  }

  lemma TickKeepsBuckets(env: Env, s: State, tick: Tick, b: int)
    requires Bucketed(env, s, b) && b % DAY_MS == 0 && tick.t < b && (env.start <= tick.t ==> b - DAY_MS <= tick.t)
    ensures Bucketed(env, OnTick(env, s, tick), b)
  {
    hide OnTick, FilledBuckets, WeekStart;
    var o := OnTick(env, s, tick);
    TickFrame(env, s, tick);
    TickBuckets(env, s, tick);
    WeekOfDay(b);
    if o.fills == s.fills {
      SameFillsSameRows(s, o);
    } else {
      var f := o.fills[|s.fills|];
      MoreBuckets(s.fills, f, WeekStart(b - 1), b);
      forall k | 0 <= k < |s.weeks| ensures RowCounts(o, s.weeks[k]) {
        MoreBuckets(s.fills, f, s.weeks[k].weekStart, s.weeks[k].weekStart + 604_800_000);
      }
    }
  }

  lemma ReceiptKeepsBuckets(env: Env, s: State, r: Receipt, b: int)
    requires Bucketed(env, s, b)
    ensures Bucketed(env, Accept(env, s, r), b)
  {
    hide Accept, FilledBuckets, WeekStart;
    AcceptFrame(env, s, r);
    SameFillsSameRows(s, Accept(env, s, r));
  }

  lemma {:induction false} MergeKeepsBuckets(env: Env, s: State, rs: seq<Receipt>, tk: seq<Tick>, b: int, end: int) returns (last: int)
    requires Bucketed(env, s, b) && b % DAY_MS == 0 && ElimWeekSet(s) && TicksSorted(tk)
    requires forall x :: x in tk && env.start <= x.t ==> b - DAY_MS <= x.t
    ensures Bucketed(env, Play(env, s, Merge(rs, tk, b, end)), last)
    decreases |rs| + |tk|, end - b
  {
    hide Bucketed, Boundary, Accept, OnTick, Play, Merge, ElimWeekSet;
    last := b;
    PlayMerge(env, s, rs, tk, b, end);
    if b <= end && (rs == [] || b <= rs[0].tRecv) && (tk == [] || b <= tk[0].t) {
      DayKeepsBuckets(env, s, b);
      StepKeepsElimWeek(env, s, DayEvent(b));
      assert forall x :: x in tk ==> b <= x.t;
      last := MergeKeepsBuckets(env, Boundary(env, s, b), rs, tk, b + DAY_MS, end);
    } else if rs != [] && rs[0].tRecv <= end && (tk == [] || rs[0].tRecv <= tk[0].t) {
      ReceiptKeepsBuckets(env, s, rs[0], b);
      StepKeepsElimWeek(env, s, ReceiptEvent(rs[0]));
      last := MergeKeepsBuckets(env, Accept(env, s, rs[0]), rs[1..], tk, b, end);
    } else if tk != [] && tk[0].t <= end {
      assert tk[0] in tk;
      assert rs != [] ==> tk[0].t < rs[0].tRecv;
      TickKeepsBuckets(env, s, tk[0], b);
      StepKeepsElimWeek(env, s, TickEvent(tk[0]));
      last := MergeKeepsBuckets(env, OnTick(env, s, tk[0]), rs, tk[1..], b, end);
    }
  }

  lemma StartIsBucketed(env: Env, b: int)
    ensures Bucketed(env, Init, b) && ElimWeekSet(Init)
  {
  }

  /** A week row counts the twelve-hour buckets in which there is a fill of its own week, and the week is active exactly
      when they are as many as the rules ask for. */
  lemma ActivityIsOfTheWeek(env: Env, rs: seq<Receipt>, tk: seq<Tick>, end: int, k: nat)
    requires TicksSorted(tk) && k < |Run(env, rs, tk, end).weeks|
    ensures var s := Run(env, rs, tk, end);
            var row := s.weeks[k];
            && row.buckets == |set f | f in s.fills && row.weekStart <= f.t < row.weekStart + 604_800_000 :: f.t / 43_200_000|
            && (row.active <==> env.rules.minBuckets <= row.buckets)
  {
    hide Play, Merge, WeekStart;
    var b := DayStart(env.start) + DAY_MS;
    StartIsBucketed(env, b);
    var last := MergeKeepsBuckets(env, Init, rs, tk, b, end);
    var i := EveryWeekRow(env, Merge(rs, tk, b, end), k);
    assert RowCounts(Run(env, rs, tk, end), Run(env, rs, tk, end).weeks[k]);
  }

  // ---------------------------------------------------------------- the equity series

  /** What an event adds to the equity series: the equity after its fill, or the equity of its day row. */
  ghost predicate SeriesAdds(s: State, o: State)
  {
    if |s.fills| < |o.fills| then o.series == s.series + [(o.fills[|s.fills|].t, o.fills[|s.fills|].equity)]
    else if |s.daily| < |o.daily| then o.series == s.series + [(o.daily[|s.daily|].t, o.daily[|s.daily|].eodEquity)]
    else o.series == s.series
  }

  /** The equity series has one point for each fill and each day row, in the order they are made. */
  lemma SeriesFollows(env: Env, s: State, e: Event)
    ensures SeriesAdds(s, Step(env, s, e))
  {
    match e
    case DayEvent(b) => DaySeries(env, s, b);
    case ReceiptEvent(r) => AcceptFrame(env, s, r);
    case TickEvent(tick) => TickSeries(env, s, tick);
  }

  lemma DaySeries(env: Env, s: State, b: int)
    ensures SeriesAdds(s, Boundary(env, s, b))
  {
    hide EquityOf, BalanceOf, Unrealised, CloseEach, Charged, ElimFloor, InOrder, WeekStart;
  }

  lemma TickSeries(env: Env, s: State, tick: Tick)
    ensures SeriesAdds(s, OnTick(env, s, tick))
  {
    hide EquityOf, Quote, Desired, TradedTo;
    TickFrame(env, s, tick);
  }

  // ---------------------------------------------------------------- the result

  /** What a replay reports of its last state: the open positions are exactly the pairs held, and equity is the balance
      and the open profit. */
  lemma ResultIs(s: State, p: Pair)
    ensures var r := ResultOf(s);
            && r.balance == 1.0 + s.book.realised - s.book.fees - s.book.carry
            && r.unrealised == Sum(s.book.qty.Keys, OpenProfit(s.book)) && r.equity == r.balance + r.unrealised
            && (p in r.positions <==> Get(s.book.qty, p) != 0.0)
            && (p in r.positions ==> r.positions[p] == Position(Get(s.book.qty, p), Get(s.book.avg, p), Get(s.book.marks, p)))
            && r.fills == s.fills && r.refused == s.refused && r.noops == s.noops && r.daily == s.daily && r.weeks == s.weeks
            && r.series == s.series && r.declared == s.declared && r.hwm == s.hwm && r.ath == s.ath
            && r.eliminatedAt == s.eliminatedAt && r.openWeekBuckets == |s.buckets|
  {
    UnrealisedIs(s.book);
    hide Unrealised, OpenProfit;
  }
}
