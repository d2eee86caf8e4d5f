/**
 What every replay keeps: the leverage and change caps of the declared targets, the weekly high-water
 mark and the drawdown rule.
 */
module BookRules {
  import opened Wrappers
  import opened Sums
  import opened AgentBooks

  lemma PlayCons(env: Env, s: State, e: Event, rest: seq<Event>)
    ensures Play(env, s, [e] + rest) == Play(env, Step(env, s, e), rest)
  {
    assert ([e] + rest)[0] == e && ([e] + rest)[1..] == rest;
  }

  /** A receipt never moves the book or its record of days and weeks. */
  lemma AcceptFrame(env: Env, s: State, r: Receipt)
    ensures var n := Accept(env, s, r);
            && n.book == s.book && n.fills == s.fills && n.series == s.series && n.buckets == s.buckets
            && n.daily == s.daily && n.weeks == s.weeks && n.ath == s.ath && n.hwm == s.hwm
            && n.eliminatedAt == s.eliminatedAt && n.elimWeek == s.elimWeek
  {
    hide Judge, Declare, Enqueue, DayStart, UsedOn;
  }

  /** A tick never moves the declared targets or the record of receipts, days and weeks. */
  lemma TickFrame(env: Env, s: State, tick: Tick)
    ensures var n := OnTick(env, s, tick);
            && n.declared == s.declared && n.changesByDay == s.changesByDay && n.lastSeq == s.lastSeq
            && n.refused == s.refused && n.noops == s.noops
            && n.daily == s.daily && n.weeks == s.weeks && n.ath == s.ath && n.hwm == s.hwm
            && n.eliminatedAt == s.eliminatedAt && n.elimWeek == s.elimWeek
  {
    hide EquityOf, Desired, Quote, Trade, FeeRate;
  }

  /** A day end never moves the declared targets or the record of receipts and fills. */
  lemma BoundaryFrame(env: Env, s: State, b: int)
    ensures var n := Boundary(env, s, b);
            && n.declared == s.declared && n.changesByDay == s.changesByDay && n.lastSeq == s.lastSeq
            && n.refused == s.refused && n.noops == s.noops && n.fills == s.fills
  {
    hide EquityOf, BalanceOf, Unrealised, CloseEach, Charged, ElimFloor, WeekStart, InOrder;
  }

  // ---------------------------------------------------------------- declared targets

  /** Two maps that read the same at every pair have the same gross. */
  lemma SameReadingSameGross(m: map<Pair, real>, n: map<Pair, real>)
    requires forall p :: Get(m, p) == Get(n, p)
    ensures GrossOf(m) == GrossOf(n)
  {
    var all := m.Keys + n.Keys;
    SumOverSupport(m.Keys, all, AbsTerm(m));
    SumOverSupport(n.Keys, all, AbsTerm(n));
    SumCongruent(all, AbsTerm(m), AbsTerm(n));
  }

  lemma GrossFallsWhenEachFalls(m: map<Pair, real>, n: map<Pair, real>, strict: Pair)
    requires forall p :: Abs(Get(n, p)) <= Abs(Get(m, p))
    requires Abs(Get(n, strict)) < Abs(Get(m, strict))
    ensures GrossOf(n) < GrossOf(m)
  {
    var all := m.Keys + n.Keys;
    SumOverSupport(m.Keys, all, AbsTerm(m));
    SumOverSupport(n.Keys, all, AbsTerm(n));
    SumTake(all, AbsTerm(m), strict);
    SumTake(all, AbsTerm(n), strict);
    SumAtMost(all - {strict}, AbsTerm(n), AbsTerm(m));
  }

  lemma {:induction false} GoodEntriesWithinCap(env: Env, es: seq<(Pair, Lev)>, p: Pair)
    requires FirstBadEntry(env, es).None?
    requires p in AsMap(es)
    ensures p in env.universe && env.universe[p] !in env.rules.excluded && Abs(AsMap(es)[p]) <= env.rules.perPairCap
    decreases |es|
  {
    var front := es[..|es| - 1];
    GoodPrefix(env, es);
    GoodLast(env, es);
    if p in AsMap(front) {
      GoodEntriesWithinCap(env, front, p);
    }
  }

  lemma {:induction false} GoodPrefix(env: Env, es: seq<(Pair, Lev)>)
    requires es != [] && FirstBadEntry(env, es).None?
    ensures FirstBadEntry(env, es[..|es| - 1]).None?
    decreases |es|
  {
    if |es| > 1 {
      GoodPrefix(env, es[1..]);
      assert es[1..][..|es| - 2] == es[..|es| - 1][1..];
    }
  }

  lemma {:induction false} GoodLast(env: Env, es: seq<(Pair, Lev)>)
    requires es != [] && FirstBadEntry(env, es).None?
    ensures FirstBadEntry(env, [es[|es| - 1]]).None?
    decreases |es|
  {
    if |es| > 1 {
      GoodLast(env, es[1..]);
    } else {
      assert es == [es[0]];
    }
  }

  /** The targets in force after a receipt that passed its checks. */
  function TargetsOf(r: Receipt): map<Pair, real>
  {
    if r.targets.Dict? then AsMap(r.targets.entries) else map[]
  }

  lemma DeclareReads(declared: map<Pair, real>, targets: map<Pair, real>)
    ensures var d := Declare(declared, Changed(targets, declared));
            forall p :: Get(d, p) == Get(declared + targets, p)
  {
  }

  lemma ChangedMoves(declared: map<Pair, real>, targets: map<Pair, real>)
    requires Changed(targets, declared) != map[]
    ensures Declare(declared, Changed(targets, declared)) != declared
  {
    var c := Changed(targets, declared);
    var p :| p in c;
    assert Get(Declare(declared, c), p) == c[p] != Get(declared, p);
  }

  ghost predicate WithinCaps(env: Env, declared: map<Pair, real>)
  {
    && GrossOf(declared) <= env.rules.grossCap + GROSS_SLACK
    && forall p :: p in declared ==>
         && declared[p] != 0.0
         && p in env.universe
         && env.universe[p] !in env.rules.excluded
         && Abs(declared[p]) <= env.rules.perPairCap
  }

  lemma DeclareKeepsCaps(env: Env, declared: map<Pair, real>, r: Receipt)
    requires WithinCaps(env, declared) && CheckReceipt(env, r, declared).None?
    ensures WithinCaps(env, Declare(declared, Changed(AsMap(r.targets.entries), declared)))
  {
    hide FirstBadEntry, AsMap, GrossOf;
    var targets := AsMap(r.targets.entries);
    var changed := Changed(targets, declared);
    var d := Declare(declared, changed);
    DeclareReads(declared, targets);
    SameReadingSameGross(d, declared + targets);
    forall p | p in d
      ensures p in env.universe && env.universe[p] !in env.rules.excluded && Abs(d[p]) <= env.rules.perPairCap
              && d[p] != 0.0
    {
      if p in changed {
        GoodEntriesWithinCap(env, r.targets.entries, p);
      }
    }
  }

  lemma AcceptKeepsCaps(env: Env, s: State, r: Receipt)
    requires WithinCaps(env, s.declared)
    ensures WithinCaps(env, Accept(env, s, r).declared)
  {
    hide WithinCaps, CheckReceipt, Declare, ChangeAllowed, Enqueue, Changed;
    if CheckReceipt(env, r, s.declared).None? {
      DeclareKeepsCaps(env, s.declared, r);
    }
  }

  lemma {:induction false} PlayKeepsCaps(env: Env, s: State, es: seq<Event>)
    requires WithinCaps(env, s.declared)
    ensures WithinCaps(env, Play(env, s, es).declared)
    decreases |es|
  {
    hide WithinCaps, Accept, OnTick, Boundary;
    if es != [] {
      match es[0]
      case ReceiptEvent(r) => AcceptKeepsCaps(env, s, r);
      case TickEvent(tick) => TickFrame(env, s, tick);
      case DayEvent(b) => BoundaryFrame(env, s, b);
    }
    if es != [] {
      PlayKeepsCaps(env, Step(env, s, es[0]), es[1..]);
    }
  }

  /** Whatever is fed to a book, its declared targets stay inside the per-pair and the gross cap and name
      only listed, non-excluded pairs. */
  lemma DeclaredAlwaysWithinCaps(env: Env, es: seq<Event>)
    requires env.rules.grossCap >= 0.0
    ensures WithinCaps(env, Play(env, Init, es).declared)
  {
    assert Init.declared.Keys == {};
    SumZero(Init.declared.Keys, AbsTerm(Init.declared));
    PlayKeepsCaps(env, Init, es);
  }

  // ---------------------------------------------------------------- changes per day

  /** The receipt was taken and moved at least one declared target. */
  ghost predicate TakesChange(env: Env, s: State, r: Receipt)
  {
    Accept(env, s, r).declared != s.declared
  }

  ghost function ChangesTaken(env: Env, s: State, es: seq<Event>, day: int): nat
    decreases |es|
  {
    if es == [] then 0
    else
      (if es[0].ReceiptEvent? && DayStart(es[0].r.tRecv) == day && TakesChange(env, s, es[0].r) then 1 else 0)
      + ChangesTaken(env, Step(env, s, es[0]), es[1..], day)
  }

  function DayLimit(rules: Rules, day: int): nat
  {
    rules.changesPerDay + (if day >= EXIT_RESERVE_FROM_S * 1000 then EXIT_RESERVE_PER_DAY else 0)
  }

  /** A taken change is counted on its own day only; anything else is counted nowhere. */
  lemma AcceptCounts(env: Env, s: State, r: Receipt, day: int)
    ensures UsedOn(Accept(env, s, r), day)
            == UsedOn(s, day) + (if DayStart(r.tRecv) == day && TakesChange(env, s, r) then 1 else 0)
    ensures UsedOn(s, day) <= DayLimit(env.rules, day) ==> UsedOn(Accept(env, s, r), day) <= DayLimit(env.rules, day)
  {
    hide FirstBadEntry, GrossOf, ReducesOnly, Enqueue;
    var targets := TargetsOf(r);
    var changed := Changed(targets, s.declared);
    if changed != map[] {
      ChangedMoves(s.declared, targets);
    }
    assert EXIT_RESERVE_FROM_S * 1000 == EXIT_RESERVE_FROM_S / 86400 * DAY_MS;
    assert r.tRecv < EXIT_RESERVE_FROM_S * 1000 <==> DayStart(r.tRecv) < EXIT_RESERVE_FROM_S * 1000;
  }

  /** Past the daily cap only a receipt from the exit-reserve date on that strictly lowers the gross
      declared leverage is taken. */
  lemma ChangePastCapReduces(env: Env, s: State, r: Receipt)
    requires TakesChange(env, s, r)
    requires UsedOn(s, DayStart(r.tRecv)) >= env.rules.changesPerDay
    ensures r.tRecv >= EXIT_RESERVE_FROM_S * 1000
    ensures UsedOn(s, DayStart(r.tRecv)) < env.rules.changesPerDay + EXIT_RESERVE_PER_DAY
    ensures GrossOf(Accept(env, s, r).declared) < GrossOf(s.declared)
  {
    hide FirstBadEntry, GrossOf, Enqueue;
    var targets := TargetsOf(r);
    var changed := Changed(targets, s.declared);
    assert ReducesOnly(changed, s.declared);
    var p :| p in changed;
    var d := Accept(env, s, r).declared;
    assert d == Declare(s.declared, changed);
    hide Accept, Judge, ChangeAllowed;
    forall x ensures Abs(Get(d, x)) <= Abs(Get(s.declared, x)) {
      if x in changed {
        assert Get(d, x) == changed[x];
      } else {
        assert Get(d, x) == Get(s.declared, x);
      }
    }
    assert Get(d, p) == changed[p];
    GrossFallsWhenEachFalls(s.declared, d, p);
  }

  lemma {:induction false} PlayCountsChanges(env: Env, s: State, es: seq<Event>, day: int)
    requires UsedOn(s, day) <= DayLimit(env.rules, day)
    ensures UsedOn(Play(env, s, es), day) == UsedOn(s, day) + ChangesTaken(env, s, es, day)
    ensures UsedOn(Play(env, s, es), day) <= DayLimit(env.rules, day)
    decreases |es|
  {
    hide DayLimit, Accept, OnTick, Boundary, TakesChange;
    if es != [] {
      match es[0]
      case ReceiptEvent(r) => AcceptCounts(env, s, r, day);
      case TickEvent(tick) => TickFrame(env, s, tick);
      case DayEvent(b) => BoundaryFrame(env, s, b);
    }
    if es != [] {
      PlayCountsChanges(env, Step(env, s, es[0]), es[1..], day);
    }
  }

  /** On every run the receipts that change something on one UTC day number at most the daily cap, plus
      the exit reserve from its date on. */
  lemma ChangesPerDayCapped(env: Env, es: seq<Event>, day: int)
    ensures ChangesTaken(env, Init, es, day) <= DayLimit(env.rules, day)
  {
    PlayCountsChanges(env, Init, es, day);
  }

  // ---------------------------------------------------------------- weekly high-water mark

  function TotalPaid(weeks: seq<WeekRow>): real
  {
    if weeks == [] then 0.0 else TotalPaid(weeks[..|weeks| - 1]) + weeks[|weeks| - 1].paid
  }

  /** The mark after week k: what the next row starts from. */
  function HwmAfter(s: State, k: nat): real
    requires k < |s.weeks|
  {
    if k + 1 < |s.weeks| then s.weeks[k + 1].prevHwm else s.hwm
  }

  ghost predicate WeeksTelescope(s: State)
  {
    && TotalPaid(s.weeks) <= s.hwm - 1.0
    && (if s.weeks == [] then s.hwm == 1.0 else s.weeks[0].prevHwm == 1.0)
    && forall k :: 0 <= k < |s.weeks| ==> RowPays(s.weeks[k], HwmAfter(s, k))
  }

  /** What a row pays, given the mark after it. */
  predicate RowPays(row: WeekRow, after: real)
  {
    0.0 <= row.paid <= after - row.prevHwm && row.paid == WeekDue(row, after - row.prevHwm)
  }

  /** What a week owes for a rise of the mark: the rise less the open loss, for an active week of a live book. */
  function WeekDue(w: WeekRow, rise: real): real
  {
    if w.active && !w.eliminated then Max(0.0, rise + Min(0.0, w.unrealised)) else 0.0
  }

  lemma WeekEndTelescopes(env: Env, s: State, t: int)
    requires WeeksTelescope(s)
    ensures WeeksTelescope(WeekEnd(env, s, t))
  {
    hide Unrealised, BalanceOf;
    var w := WeekEnd(env, s, t);
    if w != s {
      var row := w.weeks[|s.weeks|];
      assert w.weeks == s.weeks + [row];
      hide WeekEnd, Max, Min;
      WeekPays(env, s, t);
      WeeksTelescopeOnce(s, w, row);
    }
  }

  lemma WeekPays(env: Env, s: State, t: int)
    ensures var w := WeekEnd(env, s, t);
            w.weeks != s.weeks ==> |w.weeks| == |s.weeks| + 1 && w.weeks[|s.weeks|].prevHwm == s.hwm && RowPays(w.weeks[|s.weeks|], w.hwm)
  {
    hide Unrealised, BalanceOf;
  }

  lemma PaidWithOneMore(weeks: seq<WeekRow>, row: WeekRow)
    ensures TotalPaid(weeks + [row]) == TotalPaid(weeks) + row.paid
  {
    assert (weeks + [row])[..|weeks|] == weeks;
  }

  lemma PaidByRow(row: WeekRow, after: real)
    requires RowPays(row, after)
    ensures row.paid <= after - row.prevHwm
  {
  }

  lemma WeeksTelescopeOnce(s: State, w: State, row: WeekRow)
    requires WeeksTelescope(s) && w.weeks == s.weeks + [row] && row.prevHwm == s.hwm && RowPays(row, w.hwm)
    ensures WeeksTelescope(w)
  {
    hide RowPays, TotalPaid;
    PaidWithOneMore(s.weeks, row);
    PaidByRow(row, w.hwm);
    forall k | 0 <= k < |w.weeks| ensures RowPays(w.weeks[k], HwmAfter(w, k)) {
      if k < |s.weeks| {
        assert w.weeks[k] == s.weeks[k];
        assert HwmAfter(w, k) == HwmAfter(s, k);
      }
    }
  }

  lemma {:induction false} PlayTelescopes(env: Env, s: State, es: seq<Event>)
    requires WeeksTelescope(s)
    ensures WeeksTelescope(Play(env, s, es))
    decreases |es|
  {
    hide WeekEnd, Accept, OnTick, CloseEach, CarryDue, EquityOf, ElimFloor, TotalPaid;
    if es != [] {
      match es[0]
      case ReceiptEvent(r) => AcceptFrame(env, s, r);
      case TickEvent(tick) => TickFrame(env, s, tick);
      case DayEvent(b) => WeekEndTelescopes(env, DayEnd(env, s, b), b);
    }
    if es != [] {
      PlayTelescopes(env, Step(env, s, es[0]), es[1..]);
    }
  }

  /** On either basis, with any activity and elimination pattern: an active week of a live book pays exactly what it
      raised the mark less its open loss, any other week nothing; so no week pays more than it raised the mark,
      and everything ever paid is at most the final mark minus the starting equity. */
  lemma PaidNeverExceedsTheMark(env: Env, es: seq<Event>)
    ensures var s := Play(env, Init, es);
            && TotalPaid(s.weeks) <= s.hwm - 1.0
            && forall k :: 0 <= k < |s.weeks| ==>
                 && s.weeks[k].paid == WeekDue(s.weeks[k], HwmAfter(s, k) - s.weeks[k].prevHwm)
                 && 0.0 <= s.weeks[k].paid <= HwmAfter(s, k) - s.weeks[k].prevHwm
  {
    hide Play, TotalPaid, WeekDue;
    StartTelescopes();
    PlayTelescopes(env, Init, es);
  }

  lemma StartTelescopes()
    ensures WeeksTelescope(Init)
  {
  }

  // ---------------------------------------------------------------- drawdown and elimination

  /** The highest of the starting equity and the day ends so far. */
  function RunningPeak(daily: seq<DayRow>): real
  {
    if daily == [] then 1.0 else Max(RunningPeak(daily[..|daily| - 1]), daily[|daily| - 1].eodEquity)
  }

  ghost predicate DaysObeyDrawdown(env: Env, s: State)
  {
    && RowsObey(env, s.daily)
    && (s.eliminatedAt.None? ==> s.ath == RunningPeak(s.daily) && (s.daily != [] ==> !s.daily[|s.daily| - 1].eliminated))
    && (s.eliminatedAt.Some? ==> s.daily != [] && s.daily[|s.daily| - 1].eliminated
                                 && s.daily[|s.daily| - 1].t == s.eliminatedAt.value)
  }

  lemma PeakOneMore(daily: seq<DayRow>, row: DayRow)
    ensures RunningPeak(daily + [row]) == Max(RunningPeak(daily), row.eodEquity)
    ensures forall k :: 0 <= k <= |daily| ==> (daily + [row])[..k] == daily[..k]
  {
    assert (daily + [row])[..|daily|] == daily;
  }

  lemma DayEndRecord(env: Env, s: State, t: int)
    requires s.eliminatedAt.None?
    ensures var d := DayEnd(env, s, t);
            exists eod, elim ::
              && d.daily == s.daily + [DayRow(t, eod, s.ath, elim)]
              && (elim <==> eod < ElimFloor(s.ath, env.rules))
              && d.eliminatedAt == (if elim then Some(t) else None)
              && (!elim ==> d.ath == Max(s.ath, eod))
  {
    hide CloseEach, InOrder, CarryDue, Unrealised, ElimFloor, WeekStart;
    var eod := EquityOf(Charged(env, s.book, t));
    var elim := eod < ElimFloor(s.ath, env.rules);
    assert DayEnd(env, s, t).daily == s.daily + [DayRow(t, eod, s.ath, elim)];
  }

  /** The day rows alone: each carries the peak before it, is marked exactly when it is under the floor, and
      only the last one can be. */
  ghost predicate RowsObey(env: Env, daily: seq<DayRow>)
  {
    forall k :: 0 <= k < |daily| ==>
      && daily[k].ath == RunningPeak(daily[..k])
      && (daily[k].eliminated <==> daily[k].eodEquity < ElimFloor(RunningPeak(daily[..k]), env.rules))
      && (daily[k].eliminated ==> k == |daily| - 1)
  }

  lemma RowsObeyOneMore(env: Env, daily: seq<DayRow>, row: DayRow)
    requires RowsObey(env, daily) && (daily != [] ==> !daily[|daily| - 1].eliminated)
    requires row.ath == RunningPeak(daily)
    requires row.eliminated <==> row.eodEquity < ElimFloor(row.ath, env.rules)
    ensures RowsObey(env, daily + [row])
  {
    hide RunningPeak, ElimFloor;
    var after := daily + [row];
    forall k | 0 <= k < |after|
      ensures after[k].ath == RunningPeak(after[..k])
           && (after[k].eliminated <==> after[k].eodEquity < ElimFloor(RunningPeak(after[..k]), env.rules))
           && (after[k].eliminated ==> k == |after| - 1)
    {
      assert after[..k] == daily[..k];
      if k == |daily| {
        assert daily[..k] == daily;
      } else {
        assert after[k] == daily[k];
      }
    }
  }

  lemma DayEndObeysDrawdown(env: Env, s: State, t: int)
    requires DaysObeyDrawdown(env, s)
    ensures DaysObeyDrawdown(env, DayEnd(env, s, t))
  {
    if s.eliminatedAt.None? {
      DayEndRecord(env, s, t);
      hide DayEnd, RunningPeak, ElimFloor, RowsObey;
      var d := DayEnd(env, s, t);
      var eod, elim :| d.daily == s.daily + [DayRow(t, eod, s.ath, elim)]
                       && (elim <==> eod < ElimFloor(s.ath, env.rules))
                       && d.eliminatedAt == (if elim then Some(t) else None)
                       && (!elim ==> d.ath == Max(s.ath, eod));
      var row := DayRow(t, eod, s.ath, elim);
      RowsObeyOneMore(env, s.daily, row);
      PeakOneMore(s.daily, row);
    }
  }

  lemma {:induction false} PlayObeysDrawdown(env: Env, s: State, es: seq<Event>)
    requires DaysObeyDrawdown(env, s)
    ensures DaysObeyDrawdown(env, Play(env, s, es))
    decreases |es|
  {
    hide DayEnd, Accept, OnTick, Unrealised, ElimFloor, RunningPeak, RowsObey;
    if es != [] {
      match es[0]
      case ReceiptEvent(r) => AcceptFrame(env, s, r);
      case TickEvent(tick) => TickFrame(env, s, tick);
      case DayEvent(b) => DayEndObeysDrawdown(env, s, b);
    }
    if es != [] {
      PlayObeysDrawdown(env, Step(env, s, es[0]), es[1..]);
    }
  }

  lemma StartObeysDrawdown(env: Env)
    ensures DaysObeyDrawdown(env, Init)
  {
  }

  lemma FloorIs(ath: real, rules: Rules)
    ensures ElimFloor(ath, rules) == ath * (1.0 - rules.elimDrawdown) - rules.elimEps
  {
  }

  /** A day end eliminates the book exactly when its equity is under the floor below the running peak, and
      no day is recorded after that: every surviving day end is within the drawdown of the peak. */
  lemma SurvivingDaysWithinDrawdown(env: Env, es: seq<Event>)
    ensures var s := Play(env, Init, es);
            forall k :: 0 <= k < |s.daily| ==>
              && (s.daily[k].eliminated <==>
                    s.daily[k].eodEquity < RunningPeak(s.daily[..k]) * (1.0 - env.rules.elimDrawdown) - env.rules.elimEps)
              && (s.daily[k].eliminated ==> k == |s.daily| - 1 && s.eliminatedAt == Some(s.daily[k].t))
  {
    hide Play, ElimFloor, RunningPeak;
    StartObeysDrawdown(env);
    PlayObeysDrawdown(env, Init, es);
    var daily := Play(env, Init, es).daily;
    forall k | 0 <= k < |daily|
      ensures ElimFloor(RunningPeak(daily[..k]), env.rules) == RunningPeak(daily[..k]) * (1.0 - env.rules.elimDrawdown) - env.rules.elimEps
    {
      FloorIs(RunningPeak(daily[..k]), env.rules);
    }
  }

  // ---------------------------------------------------------------- nothing is paid from elimination on

  lemma WeekStartBounds(t: int)
    ensures WeekStart(t) <= t < WeekStart(t) + WEEK_MS
  {
  }

  /** Before the day end `b`: the rows written close before b, and an elimination is earlier than b. */
  ghost predicate PaidBeforeElimination(s: State, b: int)
  {
    && (forall k :: 0 <= k < |s.weeks| ==> s.weeks[k].weekStart + WEEK_MS < b)
    && (s.eliminatedAt.Some? ==> s.eliminatedAt.value < b && s.elimWeek == Some(WeekStart(s.eliminatedAt.value - 1)))
    && (s.eliminatedAt.Some? ==>
          forall k :: 0 <= k < |s.weeks| && s.weeks[k].weekStart >= WeekStart(s.eliminatedAt.value - 1) ==>
            s.weeks[k].paid == 0.0 && s.weeks[k].eliminated)
  }

  lemma BoundaryPaysNothingAfter(env: Env, s: State, b: int)
    requires PaidBeforeElimination(s, b)
    ensures PaidBeforeElimination(Boundary(env, s, b), b + DAY_MS)
  {
    hide DayEnd, WeekEnd;
    DayEndPaysNothing(env, s, b);
    WeekEndPaysNothing(env, DayEnd(env, s, b), b);
  }

  /** As before the day end, with an elimination at `b` included. */
  ghost predicate PaidUntil(s: State, b: int)
  {
    && (forall k :: 0 <= k < |s.weeks| ==> s.weeks[k].weekStart + WEEK_MS < b)
    && (s.eliminatedAt.Some? ==> s.eliminatedAt.value <= b && s.elimWeek == Some(WeekStart(s.eliminatedAt.value - 1)))
    && (s.eliminatedAt.Some? ==>
          forall k :: 0 <= k < |s.weeks| && s.weeks[k].weekStart >= WeekStart(s.eliminatedAt.value - 1) ==>
            s.weeks[k].paid == 0.0 && s.weeks[k].eliminated)
  }

  lemma DayEndPaysNothing(env: Env, s: State, b: int)
    requires PaidBeforeElimination(s, b)
    ensures PaidUntil(DayEnd(env, s, b), b)
  {
    WeekStartBounds(b - 1);
    hide Charged, EquityOf, CloseEach, ElimFloor, InOrder, WeekStart;
  }

  lemma WeekEndPaysNothing(env: Env, d: State, b: int)
    requires PaidUntil(d, b)
    ensures PaidBeforeElimination(WeekEnd(env, d, b), b + DAY_MS)
  {
    hide BalanceOf, Unrealised, WeekStart;
    var n := WeekEnd(env, d, b);
    assert n.weeks == d.weeks || n.weeks == d.weeks + [n.weeks[|d.weeks|]];
    if d.eliminatedAt.Some? && |n.weeks| > |d.weeks| {
      EarlierWeekStartsEarlier(d.eliminatedAt.value - 1, b);
    }
  }

  /** An instant before a Monday starts its week at least a week earlier than that Monday. */
  lemma EarlierWeekStartsEarlier(t: int, monday: int)
    requires t < monday && (monday - MONDAY_OFFSET_MS) % WEEK_MS == 0
    ensures WeekStart(t) <= monday - WEEK_MS
  {
    var x, y := t - MONDAY_OFFSET_MS, monday - MONDAY_OFFSET_MS;
    assert x < y && y == y / WEEK_MS * WEEK_MS;
    assert x / WEEK_MS < y / WEEK_MS;
  }

  lemma {:induction false} MergedRunPaysNothingAfter(env: Env, s: State, rs: seq<Receipt>, tk: seq<Tick>, b: int, end: int)
    returns (last: int)
    requires PaidBeforeElimination(s, b)
    ensures PaidBeforeElimination(Play(env, s, Merge(rs, tk, b, end)), last)
    decreases |rs| + |tk|, end - b
  {
    hide Boundary, Accept, OnTick;
    last := b;
    if b <= end && (rs == [] || b <= rs[0].tRecv) && (tk == [] || b <= tk[0].t) {
      PlayCons(env, s, DayEvent(b), Merge(rs, tk, b + DAY_MS, end));
      BoundaryPaysNothingAfter(env, s, b);
      last := MergedRunPaysNothingAfter(env, Boundary(env, s, b), rs, tk, b + DAY_MS, end);
    } else if rs != [] && rs[0].tRecv <= end && (tk == [] || rs[0].tRecv <= tk[0].t) {
      PlayCons(env, s, ReceiptEvent(rs[0]), Merge(rs[1..], tk, b, end));
      AcceptFrame(env, s, rs[0]);
      last := MergedRunPaysNothingAfter(env, Accept(env, s, rs[0]), rs[1..], tk, b, end);
    } else if tk != [] && tk[0].t <= end {
      PlayCons(env, s, TickEvent(tk[0]), Merge(rs, tk[1..], b, end));
      TickFrame(env, s, tk[0]);
      last := MergedRunPaysNothingAfter(env, OnTick(env, s, tk[0]), rs, tk[1..], b, end);
    }
  }

  /** A replay pays nothing for the week in which the book was eliminated or for any later week. */
  lemma NothingPaidFromElimination(env: Env, rs: seq<Receipt>, tk: seq<Tick>, end: int)
    ensures var s := Run(env, rs, tk, end);
            s.eliminatedAt.Some? ==>
              forall k :: 0 <= k < |s.weeks| && s.weeks[k].weekStart >= WeekStart(s.eliminatedAt.value - 1) ==>
                s.weeks[k].paid == 0.0
  {
    hide Merge, Play;
    var last := MergedRunPaysNothingAfter(env, Init, rs, tk, DayStart(env.start) + DAY_MS, end);
  }
}
