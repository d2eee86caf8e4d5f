/**
 The replay itself (sn89_signals/agent_books.py, _Book and replay_book): the book and the replay change
 their fields step by step, and every step is the one the specification names.
 */
module BookReplay {
  import opened Wrappers
  import opened Sums
  import opened AgentBooks
  import opened Sorting
  import opened TickShards
  import opened ThinRange

  lemma NoProfitOnNothing()
    ensures forall mark, avg :: Profit(0.0, mark, avg) == 0.0
  {
  }

  class LiveBook {
    var qty: map<Pair, real>
    var avg: map<Pair, real>
    var realised: real
    var fees: real
    var carry: real
    var marks: map<Pair, real>

    function View(): Book
      reads this
    {
      Book(qty, avg, realised, fees, carry, marks)
    }

    constructor ()
      ensures View() == EmptyBook
    {
      qty, avg, marks := map[], map[], map[];
      realised, fees, carry := 0.0, 0.0, 0.0;
    }

    method Balance() returns (b: real)
      ensures b == BalanceOf(View())
    {
      b := 1.0 + realised - fees - carry;
    }

    /** Open profit over the pairs in name order. */
    method Unrealised() returns (u: real)
      ensures u == AgentBooks.Unrealised(View())
    {
      NoProfitOnNothing();
      hide Profit;
      u := 0.0;
      var rest := qty.Keys;
      ghost var f := OpenPnl(View());
      while rest != {}
        invariant rest <= qty.Keys
        invariant u + Sum(rest, f) == Sum(qty.Keys, f)
        decreases rest
      {
        var pair := Least(rest);
        SumTake(rest, f, pair);
        var q := qty[pair];
        if q != 0.0 {
          u := u + Profit(q, Get(marks, pair), Get(avg, pair));
        } else {
          assert f(pair) == 0.0;
        }
        rest := rest - {pair};
      }
    }

    method Equity() returns (e: real)
      ensures e == EquityOf(View())
    {
      var b := Balance();
      var u := Unrealised();
      e := b + u;
    }

    method SetMark(tick: Tick)
      modifies this
      ensures View() == Mark(old(View()), tick)
    {
      marks := marks[tick.a := tick.p];
    }

    method TradeOn(pair: Pair, dq: real, px: real, feeRate: real)
      modifies this
      ensures View() == Trade(old(View()), pair, dq, px, feeRate)
    {
      hide Fee, Averaged, ClosedPnl;
      if dq == 0.0 {
        return;
      }
      var q := Get(qty, pair);
      var a := Get(avg, pair);
      fees := fees + Fee(dq, px, feeRate);
      if q == 0.0 || (q > 0.0) == (dq > 0.0) {
        var nq := q + dq;
        avg := avg[pair := Averaged(q, a, dq, px)];
        qty := qty[pair := nq];
        return;
      }
      var close := Min(Abs(dq), Abs(q));
      var sign := if q > 0.0 then 1.0 else -1.0;
      realised := realised + ClosedPnl(close, sign, px, a);
      var rest := Abs(dq) - close;
      if rest > 0.0 {
        qty := qty[pair := -sign * rest];
        avg := avg[pair := px];
      } else {
        var nq := q + dq;
        if close == Abs(q) || nq == 0.0 {
          qty := qty[pair := 0.0];
          avg := avg[pair := 0.0];
        } else {
          qty := qty[pair := nq];
        }
      }
    }
  }

  // ---------------------------------------------------------------- acceptance

  method SumAbs(m: map<Pair, real>) returns (gross: real)
    ensures gross == GrossOf(m)
  {
    gross := 0.0;
    var rest := m.Keys;
    ghost var f := AbsTerm(m);
    while rest != {}
      invariant rest <= m.Keys
      invariant gross + Sum(rest, f) == Sum(m.Keys, f)
      decreases rest
    {
      var pair := Least(rest);
      SumTake(rest, f, pair);
      gross := gross + Abs(m[pair]);
      rest := rest - {pair};
    }
  }

  lemma {:induction false} BadEntryAt(env: Env, es: seq<(Pair, Lev)>, n: nat)
    requires n <= |es|
    requires forall i :: 0 <= i < n ==> FirstBadEntry(env, [es[i]]).None?
    ensures FirstBadEntry(env, es) == FirstBadEntry(env, es[n..])
    decreases n
  {
    if n > 0 {
      assert FirstBadEntry(env, [es[0]]).None?;
      BadEntryAt(env, es[1..], n - 1);
      assert es[1..][n - 1..] == es[n..];
    } else {
      assert es[0..] == es;
    }
  }

  /** Merging the entries one by one over the declared targets. */
  lemma MergeOneMore(declared: map<Pair, real>, es: seq<(Pair, Lev)>, n: nat)
    requires n < |es|
    ensures es[..n + 1][..n] == es[..n]
    ensures es[n].1.Lev? ==> declared + AsMap(es[..n + 1]) == (declared + AsMap(es[..n]))[es[n].0 := es[n].1.v]
  {
    assert es[..n + 1][..n] == es[..n];
  }

  method CheckTargets(env: Env, r: Receipt, declared: map<Pair, real>) returns (why: Option<Reason>)
    ensures why == CheckReceipt(env, r, declared)
  {
    if r.targets.NotADict? {
      return Some(BadTargets);
    }
    var es := r.targets.entries;
    var merged := declared;
    for n := 0 to |es|
      invariant merged == declared + AsMap(es[..n])
      invariant forall i :: 0 <= i < n ==> FirstBadEntry(env, [es[i]]).None?
    {
      var (pair, lev) := es[n];
      BadEntryAt(env, es, n);
      if pair !in env.universe {
        return Some(UnknownPair(pair));
      }
      if env.universe[pair] in env.rules.excluded {
        return Some(ExcludedClass(pair));
      }
      if lev.NotALeverage? {
        return Some(BadLev(pair));
      }
      if Abs(lev.v) > env.rules.perPairCap {
        return Some(PairCap(pair));
      }
      MergeOneMore(declared, es, n);
      merged := merged[pair := lev.v];
    }
    BadEntryAt(env, es, |es|);
    assert es[..|es|] == es;
    var gross := SumAbs(merged);
    if gross > env.rules.grossCap + GROSS_SLACK {
      return Some(GrossCap);
    }
    return None;
  }

  // ---------------------------------------------------------------- the replay

  class Replay {
    const env: Env
    const book: LiveBook
    var declared: map<Pair, real>
    var pending: map<Pair, seq<Pend>>
    var changesByDay: map<int, nat>
    var lastSeq: Option<int>
    var fills: seq<Fill>
    var refused: seq<(Receipt, Reason)>
    var noops: seq<Receipt>
    var daily: seq<DayRow>
    var weeks: seq<WeekRow>
    var series: seq<(int, real)>
    var ath: real
    var hwm: real
    var buckets: set<int>
    var eliminatedAt: Option<int>
    var elimWeek: Option<int>

    function View(): State
      reads this, book
    {
      State(book.View(), declared, pending, changesByDay, lastSeq, fills, refused, noops, daily, weeks, series,
            ath, hwm, buckets, eliminatedAt, elimWeek)
    }

    constructor (env: Env)
      ensures View() == Init && fresh(book) && this.env == env
    {
      this.env := env;
      book := new LiveBook();
      declared, pending, changesByDay, lastSeq := map[], map[], map[], None;
      fills, refused, noops, daily, weeks, series := [], [], [], [], [], [];
      ath, hwm, buckets, eliminatedAt, elimWeek := 1.0, 1.0, {}, None, None;
    }

    /** Close every held pair at its mark, in name order, and drop what is pending. */
    method CloseAll()
      modifies this, book
      ensures View() == old(View()).(book := CloseEach(env, old(View().book), InOrder(HeldSet(old(View().book)))), pending := map[])
    {
      hide Trade, FeeRate;
      ghost var b0 := book.View();
      var pairs := InOrder(HeldSet(book.View()));
      ghost var s0 := View();
      assert pairs[0..] == pairs;
      for n := 0 to |pairs|
        invariant CloseEach(env, book.View(), pairs[n..]) == CloseEach(env, b0, pairs)
        invariant View() == s0.(book := book.View())
      {
        var pair := pairs[n];
        assert pairs[n..][0] == pair && pairs[n..][1..] == pairs[n + 1..];
        book.TradeOn(pair, -Get(book.qty, pair), Get(book.marks, pair), FeeRate(env, pair));
      }
      pending := map[];
    }

    method CarryCost(t: int) returns (c: real)
      ensures c == CarryDue(env, book.View(), t)
    {
      c := 0.0;
      var b := book.View();
      var rest := HeldSet(b);
      ghost var f := CarryTerm(env, b, t);
      while rest != {}
        invariant rest <= HeldSet(b)
        invariant c + Sum(rest, f) == Sum(HeldSet(b), f)
        decreases rest
      {
        var pair := Least(rest);
        SumTake(rest, f, pair);
        c := c + CarryOn(env, b, pair, t);
        rest := rest - {pair};
      }
    }

    method ChargeCarry(t: int)
      modifies book
      ensures View() == old(View()).(book := Charged(env, old(View().book), t))
    {
      hide CarryDue;
      var due := CarryCost(t);
      book.carry := book.carry + due;
    }

    method RecordDay(t: int, eod: real, elim: bool)
      modifies this
      ensures View() == old(View()).(daily := old(View().daily) + [DayRow(t, eod, old(View().ath), elim)],
                                     series := old(View().series) + [(t, eod)])
    {
      daily := daily + [DayRow(t, eod, ath, elim)];
      series := series + [(t, eod)];
    }

    method Eliminate(t: int)
      modifies this, book
      ensures View() == CloseOut(env, old(View()), t)
    {
      hide CloseEach, InOrder;
      CloseAll();
      eliminatedAt := Some(t);
      elimWeek := Some(WeekStart(t - 1));
    }

    method EndDay(t: int)
      modifies this, book
      ensures View() == DayEnd(env, old(View()), t)
    {
      hide Charged, Unrealised, EquityOf, CloseOut, ElimFloor;
      if eliminatedAt.Some? {
        return;
      }
      ChargeCarry(t);
      var eod := book.Equity();
      var elim := eod < ElimFloor(ath, env.rules);
      RecordDay(t, eod, elim);
      if elim {
        Eliminate(t);
      } else {
        ath := Max(ath, eod);
      }
    }

    method EndWeek(t: int)
      modifies this
      ensures View() == WeekEnd(env, old(View()), t)
    {
      hide Unrealised, Max, Min, BalanceOf;
      if (t - MONDAY_OFFSET_MS) % WEEK_MS != 0 {
        return;
      }
      var ws := t - WEEK_MS;
      var bal := book.Balance();
      var unr := book.Unrealised();
      var x := if env.rules.basis == Equity then bal + unr else bal;
      var gain := Max(0.0, x - hwm + Min(0.0, unr));
      var active := |buckets| >= env.rules.minBuckets;
      var dead := eliminatedAt.Some? && (elimWeek.None? || ws >= elimWeek.value);
      var paid := if active && !dead then gain else 0.0;
      weeks := weeks + [WeekRow(ws, bal, unr, hwm, gain, active, |buckets|, dead, ws < env.start, paid)];
      hwm := Max(hwm, x);
      buckets := {};
    }

    method DayBoundary(t: int)
      modifies this, book
      ensures View() == Boundary(env, old(View()), t)
    {
      hide DayEnd, WeekEnd;
      EndDay(t);
      EndWeek(t);
    }

    method Decide(r: Receipt, used: nat) returns (v: Verdict)
      ensures v == Judge(env, declared, lastSeq, used, r)
    {
      hide CheckReceipt, ChangeAllowed, Changed;
      if lastSeq.Some? && r.seqNo <= lastSeq.value {
        return Refuse(StaleSeq);
      }
      var why := CheckTargets(env, r, declared);
      if why.Some? {
        return Refuse(why.value);
      }
      CheckedIsDict(env, r, declared);
      var changed := Changed(AsMap(r.targets.entries), declared);
      if changed == map[] {
        return NoChange;
      }
      if !ChangeAllowed(used, changed, declared, r.tRecv, env.rules) {
        return RefuseLate(DayCap);
      }
      return Take(changed);
    }

    method AcceptReceipt(r: Receipt)
      modifies this
      ensures View() == Accept(env, old(View()), r)
    {
      hide Judge, Declare, Enqueue, DayStart;
      if eliminatedAt.Some? {
        refused := refused + [(r, Eliminated)];
        return;
      }
      var day := DayStart(r.tRecv);
      var used := if day in changesByDay then changesByDay[day] else 0;
      ghost var s := View();
      var v := Decide(r, used);
      assert used == UsedOn(s, day);
      assert v == Judge(env, View().declared, View().lastSeq, UsedOn(View(), day), r);
      match v
      case Refuse(why) =>
        refused := refused + [(r, why)];
      case RefuseLate(why) =>
        lastSeq := Some(r.seqNo);
        refused := refused + [(r, why)];
      case NoChange =>
        lastSeq := Some(r.seqNo);
        noops := noops + [r];
      case Take(changed) =>
        TakeChange(r, day, used, changed);
    }

    method TakeChange(r: Receipt, day: int, used: nat, changed: map<Pair, real>)
      modifies this
      ensures View() == old(View()).(lastSeq := Some(r.seqNo),
                                     changesByDay := old(View().changesByDay)[day := used + 1],
                                     declared := Declare(old(View().declared), changed),
                                     pending := Enqueue(old(View().pending), changed, r, env.rules.fillDelay))
    {
      hide Declare, Enqueue;
      lastSeq := Some(r.seqNo);
      changesByDay := changesByDay[day := used + 1];
      pending := Enqueue(pending, changed, r, env.rules.fillDelay);
      declared := Declare(declared, changed);
    }

    method OnTickAt(tick: Tick)
      requires env.start <= tick.t
      modifies this, book
      ensures View() == OnTick(env, old(View()), tick)
    {
      hide FillAt;
      var pair := tick.a;
      if pair !in env.universe {
        return;
      }
      book.SetMark(tick);
      if eliminatedAt.Some? {
        return;
      }
      var q := Queue(pending, pair);
      var n := 0;
      assert q[0..] == q;
      while n < |q| && q[n].eligible <= tick.t
        invariant n <= |q|
        invariant n + EligibleCount(q[n..], tick.t) == EligibleCount(q, tick.t)
      {
        assert q[n..][1..] == q[n + 1..];
        n := n + 1;
      }
      assert EligibleCount(q[n..], tick.t) == 0;
      if n == 0 {
        return;
      }
      FillPending(tick, n);
    }

    /** Trade one pair; a zero target leaves exactly zero. */
    method TradeTo(pair: Pair, dq: real, px: real, target: real)
      modifies book
      ensures View() == old(View()).(book := TradedTo(env, old(View().book), pair, dq, px, target))
    {
      hide FeeRate, Trade;
      book.TradeOn(pair, dq, px, FeeRate(env, pair));
      if target == 0.0 {
        book.qty := book.qty[pair := 0.0];
      }
    }

    method RecordFill(f: Fill)
      modifies this
      ensures View() == old(View()).(buckets := old(View().buckets) + {BucketOf(f.t)},
                                     fills := old(View().fills) + [f], series := old(View().series) + [(f.t, f.equity)])
    {
      buckets := buckets + {BucketOf(f.t)};
      fills := fills + [f];
      series := series + [(f.t, f.equity)];
    }

    method FillPending(tick: Tick, n: nat)
      requires 0 < n <= |PendingOf(View(), tick.a)|
      modifies this, book
      ensures View() == FillAt(env, old(View()), tick, n)
    {
      hide EquityOf, Quote, Desired, TradedTo;
      var pair := tick.a;
      var q := pending[pair];
      var target, seqNo := q[n - 1].target, q[n - 1].seqNo;
      pending := if n == |q| then pending - {pair} else pending[pair := q[n..]];
      var eq := book.Equity();
      var dq := Desired(target, eq, tick.p) - Get(book.qty, pair);
      if dq == 0.0 {
        return;
      }
      var (bid, ask) := Quote(tick, env.rules.halfSpreadBps);
      var px := if dq > 0.0 then ask else bid;
      TradeTo(pair, dq, px, target);
      var after := book.Equity();
      RecordFill(Fill(tick.t, pair, dq, px, target, after, seqNo));
    }

    /** A tick from before the replay starts only marks. */
    method MarkOnly(tick: Tick)
      requires tick.t < env.start
      modifies book
      ensures View() == OnTick(env, old(View()), tick)
    {
      if tick.a in env.universe {
        book.SetMark(tick);
      }
    }

    method Finish() returns (res: Result)
      ensures res == ResultOf(View())
    {
      var eq := book.Equity();
      var bal := book.Balance();
      var unr := book.Unrealised();
      res := Result(fills, refused, noops, daily, weeks, series, eliminatedAt, hwm, eq, bal, unr, ath,
                    Positions(book.View()), declared, |buckets|);
    }
  }

  lemma CheckedIsDict(env: Env, r: Receipt, declared: map<Pair, real>)
    requires CheckReceipt(env, r, declared).None?
    ensures r.targets.Dict?
  {
  }

  // ---------------------------------------------------------------- replay_book

  function OfAccount(receipts: seq<Receipt>, account: Account): seq<Receipt>
  {
    Filter((r: Receipt) => r.account == account, receipts)
  }

  /** The account's receipts in the order the replay takes them. */
  function AccountReceipts(receipts: seq<Receipt>, account: Account): seq<Receipt>
  {
    Sort(ReceiptLeq, OfAccount(receipts, account))
  }

  /** One event of the merged run at the head of what is left. */
  lemma PlayHead(env: Env, s: State, e: Event, rest: seq<Event>)
    ensures Play(env, s, [e] + rest) == Play(env, Step(env, s, e), rest)
  {
    assert ([e] + rest)[0] == e && ([e] + rest)[1..] == rest;
  }

  ghost function RunFrom(env: Env, s: State, rs: seq<Receipt>, tk: seq<Tick>, b: int, end: int): State
  {
    Play(env, s, Merge(rs, tk, b, end))
  }

  lemma RunBoundary(env: Env, s: State, rs: seq<Receipt>, tk: seq<Tick>, b: int, end: int)
    requires b <= end && (rs == [] || b <= rs[0].tRecv) && (tk == [] || b <= tk[0].t)
    ensures RunFrom(env, s, rs, tk, b, end) == RunFrom(env, Boundary(env, s, b), rs, tk, b + DAY_MS, end)
  {
    hide Boundary;
    PlayHead(env, s, DayEvent(b), Merge(rs, tk, b + DAY_MS, end));
  }

  lemma RunReceipt(env: Env, s: State, rs: seq<Receipt>, tk: seq<Tick>, b: int, end: int)
    requires rs != [] && rs[0].tRecv <= end && (tk == [] || rs[0].tRecv <= tk[0].t) && (b > end || rs[0].tRecv < b)
    ensures RunFrom(env, s, rs, tk, b, end) == RunFrom(env, Accept(env, s, rs[0]), rs[1..], tk, b, end)
  {
    hide Accept;
    PlayHead(env, s, ReceiptEvent(rs[0]), Merge(rs[1..], tk, b, end));
  }

  lemma RunTick(env: Env, s: State, rs: seq<Receipt>, tk: seq<Tick>, b: int, end: int)
    requires tk != [] && tk[0].t <= end && (b > end || tk[0].t < b)
    requires rs == [] || rs[0].tRecv > tk[0].t
    ensures RunFrom(env, s, rs, tk, b, end) == RunFrom(env, OnTick(env, s, tk[0]), rs, tk[1..], b, end)
  {
    hide OnTick;
    PlayHead(env, s, TickEvent(tk[0]), Merge(rs, tk[1..], b, end));
  }

  lemma RunDone(env: Env, s: State, rs: seq<Receipt>, tk: seq<Tick>, b: int, end: int)
    requires b > end && (rs == [] || rs[0].tRecv > end) && (tk == [] || tk[0].t > end)
    ensures RunFrom(env, s, rs, tk, b, end) == s
  {
  }

  /** Ticks past the end change nothing. */
  lemma {:induction false} MergeIgnoresLateTicks(rs: seq<Receipt>, tk: seq<Tick>, b: int, end: int)
    requires tk != [] && TicksSorted(tk) && tk[0].t > end
    ensures Merge(rs, tk, b, end) == Merge(rs, [], b, end)
    decreases |rs|, end - b
  {
    if b <= end && (rs == [] || b <= rs[0].tRecv) {
      MergeIgnoresLateTicks(rs, tk, b + DAY_MS, end);
    } else if rs != [] && rs[0].tRecv <= end {
      MergeIgnoresLateTicks(rs[1..], tk, b, end);
    }
  }

  /** The receipts received before `limit`, one after another. */
  method AcceptUntil(replay: Replay, rs: seq<Receipt>, ri0: nat, ghost tk: seq<Tick>, ghost b: int, ghost end: int, limit: int)
    returns (ri: nat)
    requires ri0 <= |rs| && limit <= end + 1 && (tk == [] || limit <= tk[0].t + 1) && (b > end || limit <= b)
    modifies replay
    ensures ri0 <= ri <= |rs| && (ri < |rs| ==> rs[ri].tRecv >= limit)
    ensures RunFrom(replay.env, replay.View(), rs[ri..], tk, b, end) == old(RunFrom(replay.env, replay.View(), rs[ri0..], tk, b, end))
  {
    hide Accept, RunFrom;
    ri := ri0;
    while ri < |rs| && rs[ri].tRecv < limit
      invariant ri0 <= ri <= |rs|
      invariant RunFrom(replay.env, replay.View(), rs[ri..], tk, b, end)
                == old(RunFrom(replay.env, replay.View(), rs[ri0..], tk, b, end))
    {
      RunReceipt(replay.env, replay.View(), rs[ri..], tk, b, end);
      assert rs[ri..][0] == rs[ri] && rs[ri..][1..] == rs[ri + 1..];
      replay.AcceptReceipt(rs[ri]);
      ri := ri + 1;
    }
  }

  /** Every day end through `limit`, each after the receipts received before it. */
  method BoundariesUntil(replay: Replay, rs: seq<Receipt>, ri0: nat, ghost tk: seq<Tick>, b0: int, end: int, limit: int)
    returns (ri: nat, b: int)
    requires ri0 <= |rs| && limit <= end && (tk == [] || limit <= tk[0].t)
    modifies replay, replay.book
    ensures ri <= |rs| && b > limit
    ensures RunFrom(replay.env, replay.View(), rs[ri..], tk, b, end) == old(RunFrom(replay.env, replay.View(), rs[ri0..], tk, b0, end))
  {
    hide Boundary, RunFrom;
    ri, b := ri0, b0;
    while b <= limit
      invariant ri <= |rs|
      invariant RunFrom(replay.env, replay.View(), rs[ri..], tk, b, end)
                == old(RunFrom(replay.env, replay.View(), rs[ri0..], tk, b0, end))
      decreases limit - b
    {
      ri := AcceptUntil(replay, rs, ri, tk, b, end, b);
      RunBoundary(replay.env, replay.View(), rs[ri..], tk, b, end);
      replay.DayBoundary(b);
      b := b + DAY_MS;
    }
  }

  /** Replay one book over ticks in (time, pair) order: the loop over ticks, day ends and receipts computes the
      run over their time-ordered merge. */
  method ReplayBook(env: Env, account: Account, receipts: seq<Receipt>, ticks: seq<Tick>, end: int) returns (res: Result)
    requires TicksSorted(ticks)
    ensures res == ResultOf(Run(env, AccountReceipts(receipts, account), ticks, end))
  {
    hide RunFrom, OnTick, ResultOf, Run;
    var rs := AccountReceipts(receipts, account);
    var replay := new Replay(env);
    var b := DayStart(env.start) + DAY_MS;
    ghost var goal := RunFrom(env, Init, rs, ticks, b, end);
    RunIsRunFrom(env, rs, ticks, end);
    var ri: nat := 0;
    var n := 0;
    assert rs[0..] == rs && ticks[0..] == ticks;
    while n < |ticks| && ticks[n].t <= end
      invariant ri <= |rs| && n <= |ticks|
      invariant replay.env == env && fresh(replay) && fresh(replay.book)
      invariant RunFrom(env, replay.View(), rs[ri..], ticks[n..], b, end) == goal
    {
      var tick := ticks[n];
      assert ticks[n..][0] == tick && ticks[n..][1..] == ticks[n + 1..];
      ri, b := BoundariesUntil(replay, rs, ri, ticks[n..], b, end, tick.t);
      ri := AcceptUntil(replay, rs, ri, ticks[n..], b, end, tick.t + 1);
      RunTick(env, replay.View(), rs[ri..], ticks[n..], b, end);
      if tick.t >= env.start {
        replay.OnTickAt(tick);
      } else {
        replay.MarkOnly(tick);
      }
      n := n + 1;
    }
    LateTicksDrop(env, replay.View(), rs[ri..], ticks, n, b, end);
    ri, b := BoundariesUntil(replay, rs, ri, [], b, end, end);
    ri := AcceptUntil(replay, rs, ri, [], b, end, end + 1);
    RunDone(env, replay.View(), rs[ri..], [], b, end);
    res := replay.Finish();
  }

  lemma RunIsRunFrom(env: Env, rs: seq<Receipt>, tk: seq<Tick>, end: int)
    ensures Run(env, rs, tk, end) == RunFrom(env, Init, rs, tk, DayStart(env.start) + DAY_MS, end)
  {
  }

  lemma LateTicksDrop(env: Env, s: State, rs: seq<Receipt>, ticks: seq<Tick>, n: nat, b: int, end: int)
    requires n <= |ticks| && TicksSorted(ticks) && (n < |ticks| ==> ticks[n].t > end)
    ensures RunFrom(env, s, rs, ticks[n..], b, end) == RunFrom(env, s, rs, [], b, end)
  {
    if n < |ticks| {
      MergeIgnoresLateTicks(rs, ticks[n..], b, end);
    } else {
      assert ticks[n..] == [];
    }
  }
}
