/**
 The accounting identity of the book: whatever is traded, realised profit minus the cost basis of what
 is open is minus the cash paid for it. Equity is therefore the start, minus the cash paid, minus fees
 and carry, plus the open quantities at their marks.
 */
module BookAccounting {
  import opened Wrappers
  import opened Sums
  import opened AgentBooks

  function BasisTerm(b: Book): Pair -> real
  {
    (p: Pair) => Times(Get(b.qty, p), Get(b.avg, p))
  }

  function MarkTerm(b: Book): Pair -> real
  {
    (p: Pair) => Times(Get(b.qty, p), Get(b.marks, p))
  }

  /** Realised profit minus the cost basis of the open quantities. */
  ghost function Cash(b: Book): real
  {
    b.realised - Sum(b.qty.Keys, BasisTerm(b))
  }

  /** The open quantities at their marks. */
  ghost function MarketValue(b: Book): real
  {
    Sum(b.qty.Keys, MarkTerm(b))
  }

  lemma EquityFromCash(b: Book)
    ensures EquityOf(b) == 1.0 + Cash(b) - b.fees - b.carry + MarketValue(b)
  {
    forall p | p in b.qty.Keys ensures MarkTerm(b)(p) == OpenPnl(b)(p) + BasisTerm(b)(p) {
      TimesLaws(Get(b.qty, p), 0.0, Get(b.avg, p), Get(b.marks, p));
    }
    hide Times;
    SumPlus(b.qty.Keys, OpenPnl(b), BasisTerm(b), MarkTerm(b));
  }

  // ---------------------------------------------------------------- one trade

  /** A product kept closed, so that the algebra below is done in one place. */
  function Times(x: real, y: real): real
  {
    x * y
  }

  /** What a trade leaves alone. */
  lemma TradeFrame(b: Book, pair: Pair, dq: real, px: real, feeRate: real)
    ensures var t := Trade(b, pair, dq, px, feeRate);
            && t.marks == b.marks && t.carry == b.carry
            && (forall p :: p != pair ==> Get(t.qty, p) == Get(b.qty, p) && Get(t.avg, p) == Get(b.avg, p))
            && b.qty.Keys <= t.qty.Keys <= b.qty.Keys + {pair}
            && t.fees == b.fees + Fee(dq, px, feeRate)
  {
    hide Min;
  }

  lemma TradeQty(b: Book, pair: Pair, dq: real, px: real, feeRate: real)
    ensures Get(Trade(b, pair, dq, px, feeRate).qty, pair) == Get(b.qty, pair) + dq
  {
    var q := Get(b.qty, pair);
    var close := Min(Abs(dq), Abs(q));
    var sign := if q > 0.0 then 1.0 else -1.0;
    assert Abs(dq) - close > 0.0 && q != 0.0 && (q > 0.0) != (dq > 0.0) ==> -sign * (Abs(dq) - close) == q + dq;
  }

  predicate Extends(q: real, dq: real)
  {
    dq != 0.0 && (q == 0.0 || (q > 0.0) == (dq > 0.0))
  }

  predicate Flips(q: real, dq: real)
  {
    dq != 0.0 && q != 0.0 && (q > 0.0) != (dq > 0.0) && Abs(dq) > Abs(q)
  }

  predicate Reduces(q: real, dq: real)
  {
    dq != 0.0 && q != 0.0 && (q > 0.0) != (dq > 0.0) && Abs(dq) <= Abs(q)
  }

  lemma ExtendingBasis(b: Book, pair: Pair, dq: real, px: real, feeRate: real)
    requires Extends(Get(b.qty, pair), dq)
    ensures var q, a, t := Get(b.qty, pair), Get(b.avg, pair), Trade(b, pair, dq, px, feeRate);
            t.realised == b.realised && Times(q + dq, Get(t.avg, pair)) == Times(q, a) + Times(dq, px)
  {
    var q, a, t := Get(b.qty, pair), Get(b.avg, pair), Trade(b, pair, dq, px, feeRate);
    assert t.realised == b.realised && Get(t.avg, pair) == (q * a + dq * px) / (q + dq);
    Averaging(q, a, dq, px);
  }

  lemma Averaging(q: real, a: real, dq: real, px: real)
    requires q + dq != 0.0
    ensures Times(q + dq, (q * a + dq * px) / (q + dq)) == Times(q, a) + Times(dq, px)
  {
  }

  lemma FlippingBasis(b: Book, pair: Pair, dq: real, px: real, feeRate: real)
    requires Flips(Get(b.qty, pair), dq)
    ensures var q, a, t := Get(b.qty, pair), Get(b.avg, pair), Trade(b, pair, dq, px, feeRate);
            t.realised == b.realised + Times(q, px - a) && Get(t.avg, pair) == px
  {
    var q, a, t := Get(b.qty, pair), Get(b.avg, pair), Trade(b, pair, dq, px, feeRate);
    var sign := if q > 0.0 then 1.0 else -1.0;
    assert Min(Abs(dq), Abs(q)) * sign == q;
    assert t.realised == b.realised + q * (px - a) && Get(t.avg, pair) == px;
  }

  lemma ReducingBasis(b: Book, pair: Pair, dq: real, px: real, feeRate: real)
    requires Reduces(Get(b.qty, pair), dq)
    ensures var q, a, t := Get(b.qty, pair), Get(b.avg, pair), Trade(b, pair, dq, px, feeRate);
            t.realised == b.realised - Times(dq, px - a) && (q + dq == 0.0 || Get(t.avg, pair) == a)
  {
    var q, a, t := Get(b.qty, pair), Get(b.avg, pair), Trade(b, pair, dq, px, feeRate);
    var sign := if q > 0.0 then 1.0 else -1.0;
    assert Min(Abs(dq), Abs(q)) * sign == -dq;
    assert t.realised == b.realised + (-dq) * (px - a);
  }

  lemma TimesLaws(q: real, dq: real, a: real, px: real)
    ensures Times(q + dq, a) == Times(q, a) + Times(dq, a)
    ensures Times(q + dq, px) == Times(q, px) + Times(dq, px)
    ensures Times(q, px - a) == Times(q, px) - Times(q, a)
    ensures Times(dq, px - a) == Times(dq, px) - Times(dq, a)
    ensures Times(0.0, a) == 0.0
  {
  }

  /** How much the basis of the traded pair grows beyond the realised profit. */
  function BasisGrowth(b: Book, t: Book, pair: Pair): real
  {
    Times(Get(t.qty, pair), Get(t.avg, pair)) - Times(Get(b.qty, pair), Get(b.avg, pair)) - (t.realised - b.realised)
  }

  /** Opening, adding, reducing, closing or flipping: the basis and the realised profit move together. */
  lemma TradeOnPair(b: Book, pair: Pair, dq: real, px: real, feeRate: real)
    ensures BasisGrowth(b, Trade(b, pair, dq, px, feeRate), pair) == Times(dq, px)
  {
    var q, a := Get(b.qty, pair), Get(b.avg, pair);
    var t := Trade(b, pair, dq, px, feeRate);
    TradeQty(b, pair, dq, px, feeRate);
    TimesLaws(q, dq, a, px);
    if dq == 0.0 {
      assert t == b;
    } else if Extends(q, dq) {
      hide Trade, Times;
      ExtendingBasis(b, pair, dq, px, feeRate);
    } else if Flips(q, dq) {
      hide Trade, Times;
      FlippingBasis(b, pair, dq, px, feeRate);
    } else {
      hide Trade, Times;
      ReducingBasis(b, pair, dq, px, feeRate);
      TimesLaws(q, dq, Get(t.avg, pair), px);
      TimesLaws(q, dq, a, px);
      TimesZero();
    }
  }

  lemma TimesZero()
    ensures forall a :: Times(0.0, a) == 0.0
  {
  }

  /** A trade changes cash by exactly what was paid, and the quantity by exactly what was traded. */
  lemma {:induction false} TradeMovesCash(b: Book, pair: Pair, dq: real, px: real, feeRate: real)
    ensures var t := Trade(b, pair, dq, px, feeRate);
            && Cash(t) == Cash(b) - Times(dq, px)
            && t.fees == b.fees + Fee(dq, px, feeRate)
            && t.carry == b.carry && t.marks == b.marks
            && (forall p :: Get(t.qty, p) == Get(b.qty, p) + (if p == pair then dq else 0.0))
  {
    hide Trade, Times, Fee, Quote, Desired, ElimFloor, FeeRate;
    var t := Trade(b, pair, dq, px, feeRate);
    TimesZero();
    TradeFrame(b, pair, dq, px, feeRate);
    TradeQty(b, pair, dq, px, feeRate);
    TradeOnPair(b, pair, dq, px, feeRate);
    var keys := b.qty.Keys + {pair};
    SumOverSupport(b.qty.Keys, keys, BasisTerm(b));
    SumOverSupport(t.qty.Keys, keys, BasisTerm(t));
    SumChangeOne(keys, BasisTerm(b), BasisTerm(t), pair);
  }

  /** The value at the marks moves by the traded quantity at its own mark. */
  lemma {:induction false} TradeMovesValue(b: Book, pair: Pair, dq: real, px: real, feeRate: real)
    ensures MarketValue(Trade(b, pair, dq, px, feeRate)) == MarketValue(b) + Times(dq, Get(b.marks, pair))
  {
    hide Trade, Times, Fee, Quote, Desired, ElimFloor, FeeRate;
    var t := Trade(b, pair, dq, px, feeRate);
    TimesZero();
    TradeFrame(b, pair, dq, px, feeRate);
    TradeQty(b, pair, dq, px, feeRate);
    TradeOnPair(b, pair, dq, px, feeRate);
    var keys := b.qty.Keys + {pair};
    SumOverSupport(b.qty.Keys, keys, MarkTerm(b));
    SumOverSupport(t.qty.Keys, keys, MarkTerm(t));
    SumChangeOne(keys, MarkTerm(b), MarkTerm(t), pair);
    TimesLaws(Get(b.qty, pair), dq, Get(b.marks, pair), 0.0);
  }

  /** Trading at the mark costs the fee and nothing else. */
  lemma TradeAtMark(b: Book, pair: Pair, dq: real, feeRate: real)
    ensures EquityOf(Trade(b, pair, dq, Get(b.marks, pair), feeRate))
            == EquityOf(b) - Fee(dq, Get(b.marks, pair), feeRate)
  {
    hide Trade, Times, Fee, Quote, Desired, ElimFloor, FeeRate;
    var m := Get(b.marks, pair);
    TradeMovesCash(b, pair, dq, m, feeRate);
    TradeMovesValue(b, pair, dq, m, feeRate);
    EquityFromCash(b);
    EquityFromCash(Trade(b, pair, dq, m, feeRate));
  }

  /**
   What a trade realises: nothing when it opens or adds, which averages the entry; the closed units' move from the
   entry when it reduces or closes, which leaves the entry of the rest; all of the position's move when it flips, and
   the rest is entered at the price.
   */
  lemma TradeRealises(b: Book, pair: Pair, dq: real, px: real, feeRate: real)
    requires dq != 0.0
    ensures var q, a, n := Get(b.qty, pair), Get(b.avg, pair), Trade(b, pair, dq, px, feeRate);
            && n.fees == b.fees + feeRate * Abs(dq) * px
            && Get(n.qty, pair) == q + dq
            && if (q >= 0.0 && dq > 0.0) || (q <= 0.0 && dq < 0.0) then
                 n.realised == b.realised && Get(n.avg, pair) * (q + dq) == q * a + dq * px
               else if Abs(dq) <= Abs(q) then
                 n.realised == b.realised - dq * (px - a) && (q + dq != 0.0 ==> Get(n.avg, pair) == a)
               else n.realised == b.realised + q * (px - a) && Get(n.avg, pair) == px
  {
    hide Fee, Averaged, ClosedPnl, Abs, Min;
    TradeQty(b, pair, dq, px, feeRate);
    TradeFrame(b, pair, dq, px, feeRate);
    FeeOf(dq, px, feeRate);
    var q, a := Get(b.qty, pair), Get(b.avg, pair);
    Sizes(dq);
    Sizes(q);
    if Extends(q, dq) {
      AverageHolds(q, a, dq, px);
    } else {
      SmallerSize(dq, q);
      hide Trade;
      TradeCloses(b, pair, dq, px, feeRate);
      ClosedSigns(dq, px, a);
      ClosedSigns(q, px, a);
    }
  }

  lemma Sizes(x: real)
    ensures Abs(x) == (if x < 0.0 then -x else x) >= 0.0
  {
  }

  lemma SmallerSize(x: real, y: real)
    ensures Min(Abs(x), Abs(y)) == if Abs(x) <= Abs(y) then Abs(x) else Abs(y)
  {
  }

  lemma FeeOf(dq: real, px: real, feeRate: real)
    ensures Fee(dq, px, feeRate) == feeRate * Abs(dq) * px
  {
  }

  /** What a trade against the position does to the realised profit and the entry. */
  lemma TradeCloses(b: Book, pair: Pair, dq: real, px: real, feeRate: real)
    requires dq != 0.0 && !Extends(Get(b.qty, pair), dq)
    ensures var q, a, n := Get(b.qty, pair), Get(b.avg, pair), Trade(b, pair, dq, px, feeRate);
            var close := if Abs(dq) <= Abs(q) then Abs(dq) else Abs(q);
            && n.realised == b.realised + ClosedPnl(close, if q > 0.0 then 1.0 else -1.0, px, a)
            && (Abs(dq) <= Abs(q) && q + dq != 0.0 ==> Get(n.avg, pair) == a)
            && (Abs(q) < Abs(dq) ==> Get(n.avg, pair) == px)
  {
    hide Fee, Averaged, ClosedPnl;
  }

  lemma AverageHolds(q: real, a: real, dq: real, px: real)
    requires q + dq != 0.0
    ensures Averaged(q, a, dq, px) * (q + dq) == q * a + dq * px
  {
  }

  lemma ClosedSigns(x: real, px: real, a: real)
    ensures ClosedPnl(Abs(x), 1.0, px, a) == (if x < 0.0 then -(x * (px - a)) else x * (px - a))
    ensures ClosedPnl(Abs(x), -1.0, px, a) == (if x < 0.0 then x * (px - a) else -(x * (px - a)))
  {
  }

  // ---------------------------------------------------------------- any sequence of trades

  datatype Deal = Deal(pair: Pair, dq: real, px: real, feeRate: real)

  function TradeAll(b: Book, ds: seq<Deal>): Book
    decreases |ds|
  {
    if ds == [] then b
    else TradeAll(Trade(b, ds[0].pair, ds[0].dq, ds[0].px, ds[0].feeRate), ds[1..])
  }

  function Paid(ds: seq<Deal>): real
  {
    if ds == [] then 0.0 else Times(ds[0].dq, ds[0].px) + Paid(ds[1..])
  }

  function FeesOn(ds: seq<Deal>): real
  {
    if ds == [] then 0.0 else Fee(ds[0].dq, ds[0].px, ds[0].feeRate) + FeesOn(ds[1..])
  }

  function NetDealt(ds: seq<Deal>, pair: Pair): real
  {
    if ds == [] then 0.0 else (if ds[0].pair == pair then ds[0].dq else 0.0) + NetDealt(ds[1..], pair)
  }

  /** Opens, adds, reductions, closes and flips in any order: equity is the start minus what was paid,
      minus fees and carry, plus the net quantities at their marks. */
  lemma {:induction false} AccountingIdentity(b: Book, ds: seq<Deal>)
    ensures var t := TradeAll(b, ds);
            && Cash(t) == Cash(b) - Paid(ds)
            && t.fees == b.fees + FeesOn(ds)
            && t.carry == b.carry && t.marks == b.marks
            && (forall p :: Get(t.qty, p) == Get(b.qty, p) + NetDealt(ds, p))
            && EquityOf(t) == 1.0 + Cash(b) - Paid(ds) - t.fees - t.carry + MarketValue(t)
    decreases |ds|
  {
    hide Trade, Times, Fee, Quote, Desired, ElimFloor, FeeRate;
    EquityFromCash(TradeAll(b, ds));
    if ds != [] {
      TradeMovesCash(b, ds[0].pair, ds[0].dq, ds[0].px, ds[0].feeRate);
      AccountingIdentity(Trade(b, ds[0].pair, ds[0].dq, ds[0].px, ds[0].feeRate), ds[1..]);
    }
  }

  // ---------------------------------------------------------------- closing an eliminated book

  predicate Flat(b: Book)
  {
    forall p :: p in b.qty ==> b.qty[p] == 0.0
  }

  function ClosingFees(env: Env, b: Book, pairs: seq<Pair>): real
  {
    if pairs == [] then 0.0
    else Fee(-Get(b.qty, pairs[0]), Get(b.marks, pairs[0]), FeeRate(env, pairs[0])) + ClosingFees(env, b, pairs[1..])
  }

  lemma {:induction false} ClosingFeesDependOn(env: Env, b: Book, c: Book, pairs: seq<Pair>)
    requires b.marks == c.marks
    requires forall p :: p in pairs ==> Get(b.qty, p) == Get(c.qty, p)
    ensures ClosingFees(env, b, pairs) == ClosingFees(env, c, pairs)
    decreases |pairs|
  {
    if pairs != [] {
      ClosingFeesDependOn(env, b, c, pairs[1..]);
    }
  }

  /** Closing at the marks leaves nothing open and changes equity by exactly the fees charged. */
  lemma {:induction false} CloseAllCostsItsFees(env: Env, b: Book, pairs: seq<Pair>)
    requires forall i, j :: 0 <= i < j < |pairs| ==> pairs[i] != pairs[j]
    ensures var c := CloseEach(env, b, pairs);
            && EquityOf(c) == EquityOf(b) - ClosingFees(env, b, pairs)
            && (forall p :: p in pairs ==> Get(c.qty, p) == 0.0)
            && (forall p :: p !in pairs ==> Get(c.qty, p) == Get(b.qty, p))
            && c.marks == b.marks && c.carry == b.carry
            && c.fees == b.fees + ClosingFees(env, b, pairs)
    decreases |pairs|
  {
    hide Trade, Times, Fee, FeeRate, EquityOf;
    if pairs != [] {
      var p := pairs[0];
      var dq := -Get(b.qty, p);
      var t := Trade(b, p, dq, Get(b.marks, p), FeeRate(env, p));
      hide FeeRate;
      TradeMovesCash(b, p, dq, Get(b.marks, p), FeeRate(env, p));
      TradeAtMark(b, p, dq, FeeRate(env, p));
      CloseAllCostsItsFees(env, t, pairs[1..]);
      ClosingFeesDependOn(env, b, t, pairs[1..]);
    }
  }

  lemma FlatEquity(b: Book)
    requires Flat(b)
    ensures Unrealised(b) == 0.0 && EquityOf(b) == BalanceOf(b)
  {
    forall p | p in b.qty.Keys ensures OpenPnl(b)(p) == 0.0 {
      assert Get(b.qty, p) == 0.0;
    }
    SumZero(b.qty.Keys, OpenPnl(b));
  }

  /** Closing everything that is held leaves the book flat, at the equity it had minus the closing fees. */
  lemma CloseOutIsFlat(env: Env, s: State, t: int)
    ensures var c := CloseOut(env, s, t);
            && Flat(c.book)
            && EquityOf(c.book) == EquityOf(s.book) - ClosingFees(env, s.book, InOrder(HeldSet(s.book)))
            && BalanceOf(c.book) == EquityOf(c.book)
            && c.pending == map[] && c.daily == s.daily && c.eliminatedAt == Some(t)
  {
    hide CloseEach, EquityOf, BalanceOf, Unrealised, ClosingFees, WeekStart;
    var held := InOrder(HeldSet(s.book));
    CloseAllCostsItsFees(env, s.book, held);
    var c := CloseEach(env, s.book, held);
    forall p | p in c.qty ensures c.qty[p] == 0.0 {
      assert Get(c.qty, p) == c.qty[p];
      if p !in held {
        assert Get(s.book.qty, p) == 0.0;
      }
    }
    FlatEquity(c);
  }

  /** The elimination of a book: from its day's row the equity drops by the closing fees and nothing is left open. */
  lemma EliminationChargesOnlyFees(env: Env, s: State, t: int)
    requires s.eliminatedAt.None? && DayEnd(env, s, t).eliminatedAt.Some?
    ensures var e := DayEnd(env, s, t);
            var b := Charged(env, s.book, t);
            && Flat(e.book)
            && |e.daily| == |s.daily| + 1
            && EquityOf(e.book) == e.daily[|s.daily|].eodEquity - ClosingFees(env, b, InOrder(HeldSet(b)))
            && BalanceOf(e.book) == EquityOf(e.book)
            && e.pending == map[]
  {
    hide CloseOut, EquityOf, BalanceOf, Charged, ClosingFees, ElimFloor, InOrder, HeldSet, Flat;
    var b := Charged(env, s.book, t);
    var eod := EquityOf(b);
    var s1 := s.(book := b, daily := s.daily + [DayRow(t, eod, s.ath, true)], series := s.series + [(t, eod)]);
    CloseOutIsFlat(env, s1, t);
    assert DayEnd(env, s, t) == CloseOut(env, s1, t);
  }

  /** What an eliminated, flat book never changes again. */
  ghost predicate Frozen(s: State, n: State)
  {
    && n.eliminatedAt.Some? && n.eliminatedAt == s.eliminatedAt
    && n.fills == s.fills && n.daily == s.daily && n.pending == map[]
    && Flat(n.book) && BalanceOf(n.book) == BalanceOf(s.book) && EquityOf(n.book) == BalanceOf(s.book)
  }

  lemma StepStaysFrozen(env: Env, s: State, e: Event)
    requires s.eliminatedAt.Some? && s.pending == map[] && Flat(s.book)
    ensures Frozen(s, Step(env, s, e))
  {
    hide EquityOf, Unrealised;
    FlatEquity(Step(env, s, e).book);
  }

  /** After its elimination a book makes no fill, and its equity stays where the closing left it. */
  lemma {:induction false} FrozenAfterElimination(env: Env, s: State, es: seq<Event>)
    requires s.eliminatedAt.Some? && s.pending == map[] && Flat(s.book)
    ensures Frozen(s, Play(env, s, es))
    decreases |es|
  {
    if es == [] {
      FlatEquity(s.book);
    } else {
      hide Step, EquityOf, BalanceOf;
      StepStaysFrozen(env, s, es[0]);
      FrozenAfterElimination(env, Step(env, s, es[0]), es[1..]);
    }
  }

  // ---------------------------------------------------------------- whole replays

  function Spent(fs: seq<Fill>): real
  {
    if fs == [] then 0.0 else Spent(fs[..|fs| - 1]) + Times(fs[|fs| - 1].dq, fs[|fs| - 1].px)
  }

  function Bought(fs: seq<Fill>, pair: Pair): real
  {
    if fs == [] then 0.0
    else Bought(fs[..|fs| - 1], pair) + (if fs[|fs| - 1].pair == pair then fs[|fs| - 1].dq else 0.0)
  }

  /** What the recorded fills say about the book. */
  ghost predicate FillsExplainBook(s: State)
  {
    s.eliminatedAt.None? ==>
      Cash(s.book) == -Spent(s.fills) && forall p :: Get(s.book.qty, p) == Bought(s.fills, p)
  }

  lemma MarkKeepsCash(b: Book, tick: Tick)
    ensures Cash(Mark(b, tick)) == Cash(b)
  {
    SumCongruent(b.qty.Keys, BasisTerm(b), BasisTerm(Mark(b, tick)));
  }

  lemma CarryKeepsCash(b: Book, c: real)
    ensures Cash(b.(carry := c)) == Cash(b)
  {
    SumCongruent(b.qty.Keys, BasisTerm(b), BasisTerm(b.(carry := c)));
  }

  /** A target of zero leaves exactly zero, so writing the zero again changes nothing. */
  lemma ClosingTrade(b: Book, pair: Pair, px: real, feeRate: real)
    requires Get(b.qty, pair) != 0.0
    ensures var t := Trade(b, pair, 0.0 - Get(b.qty, pair), px, feeRate);
            t.(qty := t.qty[pair := 0.0]) == t
  {
    hide Fee;
  }

  lemma NothingDesired(equity: real, mid: Price)
    ensures Desired(0.0, equity, mid) == 0.0
  {
  }

  lemma FillKeepsAccount(env: Env, s: State, tick: Tick, n: nat)
    requires 0 < n <= |PendingOf(s, tick.a)|
    requires FillsExplainBook(s) && s.eliminatedAt.None?
    ensures FillsExplainBook(FillAt(env, s, tick, n))
  {
    hide FillAt, Trade, Times, Cash;
    var f := FillAt(env, s, tick, n);
    FillIsTrade(env, s, tick, n);
    if f.fills != s.fills {
      var fill := f.fills[|s.fills|];
      assert f.fills[..|f.fills| - 1] == s.fills;
      TradeMovesCash(s.book, tick.a, fill.dq, fill.px, FeeRate(env, tick.a));
    }
  }

  /** A fill is one trade of the size and at the price it records. */
  lemma FillIsTrade(env: Env, s: State, tick: Tick, n: nat)
    requires 0 < n <= |PendingOf(s, tick.a)|
    ensures var f := FillAt(env, s, tick, n);
            && f.eliminatedAt == s.eliminatedAt
            && if f.fills == s.fills then f.book == s.book
               else |f.fills| == |s.fills| + 1 && f.fills == s.fills + [f.fills[|s.fills|]] && f.fills[|s.fills|].pair == tick.a
                    && f.book == Trade(s.book, tick.a, f.fills[|s.fills|].dq, f.fills[|s.fills|].px, FeeRate(env, tick.a))
  {
    hide Trade, Quote, Desired, FeeRate, EquityOf;
    var f := FillAt(env, s, tick, n);
    if f.fills != s.fills {
      var fill := f.fills[|s.fills|];
      if fill.target == 0.0 {
        NothingDesired(EquityOf(s.book), tick.p);
        ClosingTrade(s.book, tick.a, fill.px, FeeRate(env, tick.a));
      }
    }
  }

  lemma DayKeepsAccount(env: Env, s: State, t: int)
    requires FillsExplainBook(s)
    ensures FillsExplainBook(Boundary(env, s, t))
  {
    hide Times, Fee, ElimFloor, CloseEach, CarryDue, Unrealised, Cash;
    CarryKeepsCash(s.book, s.book.carry + CarryDue(env, s.book, t));
    assert FillsExplainBook(DayEnd(env, s, t));
  }

  lemma TickKeepsAccount(env: Env, s: State, tick: Tick)
    requires FillsExplainBook(s)
    ensures FillsExplainBook(OnTick(env, s, tick))
  {
    hide FillAt, Times, Cash, Quote;
    MarkKeepsCash(s.book, tick);
    var n := EligibleCount(PendingOf(s, tick.a), tick.t);
    if tick.a in env.universe && s.eliminatedAt.None? && tick.t >= env.start && n != 0 {
      FillKeepsAccount(env, s.(book := Mark(s.book, tick)), tick, n);
    }
  }

  lemma StepKeepsAccount(env: Env, s: State, e: Event)
    requires FillsExplainBook(s)
    ensures FillsExplainBook(Step(env, s, e))
  {
    hide Boundary, OnTick, FirstBadEntry, GrossOf, Cash, Spent, Bought;
    match e
    case DayEvent(t) => DayKeepsAccount(env, s, t);
    case ReceiptEvent(r) =>
    case TickEvent(tick) => TickKeepsAccount(env, s, tick);
  }

  lemma {:induction false} PlayKeepsAccount(env: Env, s: State, es: seq<Event>)
    requires FillsExplainBook(s)
    ensures FillsExplainBook(Play(env, s, es))
    decreases |es|
  {
    if es != [] {
      StepKeepsAccount(env, s, es[0]);
      PlayKeepsAccount(env, Step(env, s, es[0]), es[1..]);
    }
  }

  lemma InitIsExplained()
    ensures FillsExplainBook(Init)
  {
    assert EmptyBook.qty.Keys == {};
    SumZero(EmptyBook.qty.Keys, BasisTerm(EmptyBook));
  }

  /** Over any receipts, ticks and day ends, in any order: the equity of a surviving book is the start
      minus the cost of its recorded fills, minus fees and carry, plus the net filled quantities at
      their marks. */
  lemma EquityIsExplainedByFills(env: Env, es: seq<Event>)
    ensures var s := Play(env, Init, es);
            s.eliminatedAt.None? ==>
              && EquityOf(s.book) == 1.0 - Spent(s.fills) - s.book.fees - s.book.carry + MarketValue(s.book)
              && forall p :: Get(s.book.qty, p) == Bought(s.fills, p)
  {
    hide Play, Step, Trade, Times, Fee, Quote, Desired, ElimFloor, FeeRate;
    hide Init, FillsExplainBook;
    InitIsExplained();
    PlayKeepsAccount(env, Init, es);
    ExplainedEquity(Play(env, Init, es));
  }

  lemma ExplainedEquity(s: State)
    requires FillsExplainBook(s)
    ensures s.eliminatedAt.None? ==>
              && EquityOf(s.book) == 1.0 - Spent(s.fills) - s.book.fees - s.book.carry + MarketValue(s.book)
              && forall p :: Get(s.book.qty, p) == Bought(s.fills, p)
  {
    EquityFromCash(s.book);
  }
}
