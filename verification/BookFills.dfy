/**
 What a replay fills, when, at which price and for how much (sn89_signals/agent_books.py:283-289, 477-510), said of the
 events alone: every recorded fill belongs to a tick of its pair and to the last change of the pair's target that is due,
 and every tick that meets a due change fills it unless the book already has the right size.
 */
module BookFills {
  import opened Wrappers
  import opened AgentBooks
  import opened BookRules
  import opened BookAccounting
  import opened TickSimulation

  // ---------------------------------------------------------------- runs, event by event

  /** The state before event `i`. */
  ghost function At(env: Env, es: seq<Event>, i: nat): State
    requires i <= |es|
  {
    Play(env, Init, es[..i])
  }

  lemma {:induction false} PlayLast(env: Env, s: State, es: seq<Event>)
    requires es != []
    ensures Play(env, s, es) == Step(env, Play(env, s, es[..|es| - 1]), es[|es| - 1])
    decreases |es|
  {
    hide Step;
    if |es| > 1 {
      PlayLast(env, Step(env, s, es[0]), es[1..]);
      assert es[1..][..|es| - 2] == es[..|es| - 1][1..];
    }
  }

  lemma AtNext(env: Env, es: seq<Event>, i: nat)
    requires i < |es|
    ensures At(env, es, i + 1) == Step(env, At(env, es, i), es[i])
  {
    hide Step;
    PlayLast(env, Init, es[..i + 1]);
    assert es[..i + 1][..i] == es[..i];
  }

  lemma AtFront(env: Env, es: seq<Event>, i: nat)
    requires es != [] && i < |es|
    ensures At(env, es[..|es| - 1], i) == At(env, es, i)
    ensures At(env, es, |es|) == Play(env, Init, es)
  {
    assert es[..|es| - 1][..i] == es[..i];
    assert es[..|es|] == es;
  }

  /** Receipts come in the order they were received. */
  ghost predicate ReceiptsInOrder(es: seq<Event>)
  {
    forall i, j :: 0 <= i < j < |es| && es[i].ReceiptEvent? && es[j].ReceiptEvent? ==> es[i].r.tRecv <= es[j].r.tRecv
  }

  // ---------------------------------------------------------------- orders

  /** Event `j` is a receipt that moved the declared target of the pair. */
  ghost predicate Orders(env: Env, es: seq<Event>, j: nat, p: Pair)
    requires j < |es|
  {
    es[j].ReceiptEvent? && Get(At(env, es, j + 1).declared, p) != Get(At(env, es, j).declared, p)
  }

  function DueTime(env: Env, es: seq<Event>, j: nat): int
    requires j < |es|
  {
    if es[j].ReceiptEvent? then es[j].r.tRecv + env.rules.fillDelay else 0
  }

  /** Event `i` is a tick of the pair, after the replay's start, at which a change due at `due` can fill. */
  predicate Meets(env: Env, es: seq<Event>, i: nat, p: Pair, due: int)
    requires i < |es|
  {
    es[i].TickEvent? && es[i].tick.a == p && env.start <= es[i].tick.t && due <= es[i].tick.t
  }

  /** The change of event `j` has met no tick before event `i`. */
  ghost predicate Waits(env: Env, es: seq<Event>, j: nat, p: Pair, i: nat)
    requires i <= |es|
  {
    j < i && Orders(env, es, j, p) && forall k :: j < k < i ==> !Meets(env, es, k, p, DueTime(env, es, j))
  }

  /** `w` lists, in order, the changes of the pair that wait, and the queue holds exactly those. */
  ghost predicate IsQueue(env: Env, es: seq<Event>, p: Pair, q: seq<Pend>, w: seq<nat>)
  {
    && |w| == |q|
    && (forall k, l :: 0 <= k < l < |w| ==> w[k] < w[l])
    && (forall k :: 0 <= k < |w| ==> Waits(env, es, w[k], p, |es|) && IsEntry(env, es, p, q[k], w[k]))
    && (forall j :: Waits(env, es, j, p, |es|) ==> j in w)
  }

  ghost predicate IsEntry(env: Env, es: seq<Event>, p: Pair, x: Pend, j: nat)
    requires j < |es|
  {
    es[j].ReceiptEvent? && x == Pend(DueTime(env, es, j), Get(At(env, es, j + 1).declared, p), es[j].r.seqNo)
  }

  // ---------------------------------------------------------------- what each event does to a queue

  /** A receipt queues a change for exactly the pairs whose target it moves. */
  lemma AcceptQueues(env: Env, s: State, r: Receipt, p: Pair)
    ensures var n := Accept(env, s, r);
            PendingOf(n, p) == if Get(n.declared, p) == Get(s.declared, p) then PendingOf(s, p)
                               else PendingOf(s, p) + [Pend(r.tRecv + env.rules.fillDelay, Get(n.declared, p), r.seqNo)]
  {
    hide CheckReceipt, ChangeAllowed, DayStart, AsMap;
    var n := Accept(env, s, r);
    DeclareReads(s.declared, TargetsOf(r));
  }

  /** A changed target is that of an entry of the receipt, for a pair of the universe. */
  lemma ChangeIsListed(env: Env, s: State, r: Receipt, p: Pair)
    requires Get(Accept(env, s, r).declared, p) != Get(s.declared, p)
    ensures p in env.universe && r.targets.Dict? && (p, Lev(Get(Accept(env, s, r).declared, p))) in r.targets.entries
    ensures s.eliminatedAt.None?
  {
    hide GrossOf, ChangeAllowed, DayStart, Enqueue, FirstBadEntry, AsMap;
    DeclareReads(s.declared, TargetsOf(r));
    AllListed(env, r, p);
    MapIsListed(r.targets.entries, p);
  }

  lemma {:induction false} MapIsListed(es: seq<(Pair, Lev)>, p: Pair)
    requires p in AsMap(es)
    ensures (p, Lev(AsMap(es)[p])) in es
    decreases |es|
  {
    var front, e := es[..|es| - 1], es[|es| - 1];
    if !(e.1.Lev? && e.0 == p) {
      MapIsListed(front, p);
    }
  }

  /** A day end that leaves the book alive leaves its queues. */
  lemma DayKeepsQueues(env: Env, s: State, b: int)
    ensures var n := Boundary(env, s, b);
            && (n.eliminatedAt.None? ==> s.eliminatedAt.None? && n.pending == s.pending)
  {
    hide Unrealised, BalanceOf, Charged, EquityOf, CloseEach, ElimFloor, InOrder, WeekStart;
  }

  /** A tick of a live book takes the due front of its own pair's queue. */
  lemma TickQueues(env: Env, s: State, tick: Tick, p: Pair)
    ensures PendingOf(OnTick(env, s, tick), p)
            == if p == tick.a && p in env.universe && s.eliminatedAt.None? && env.start <= tick.t
               then PendingOf(s, p)[EligibleCount(PendingOf(s, p), tick.t)..] else PendingOf(s, p)
  {
    hide EquityOf, Quote, Desired, TradedTo;
  }

  lemma {:induction false} CountsDue(q: seq<Pend>, t: int)
    ensures var n := EligibleCount(q, t);
            && (forall k :: 0 <= k < n ==> q[k].eligible <= t)
            && (n < |q| ==> t < q[n].eligible)
    decreases |q|
  {
    if q != [] && q[0].eligible <= t {
      CountsDue(q[1..], t);
    }
  }

  // ---------------------------------------------------------------- the queue of a run

  /** The events before the last, and what they leave for it. */
  lemma WaitsOneMore(env: Env, es: seq<Event>, j: nat, p: Pair)
    requires es != []
    ensures var front, i := es[..|es| - 1], |es| - 1;
            && (j < i ==> (Waits(env, es, j, p, |es|) <==> Waits(env, front, j, p, i) && !Meets(env, es, i, p, DueTime(env, es, j))))
            && (j == i ==> (Waits(env, es, j, p, |es|) <==> Orders(env, es, i, p)))
            && (j > i ==> !Waits(env, es, j, p, |es|))
  {
    hide Orders, Meets, DueTime;
    WaitsSame(env, es, j, p);
  }

  lemma EntryOneMore(env: Env, es: seq<Event>, p: Pair, x: Pend, j: nat)
    requires es != [] && j < |es| - 1 && IsEntry(env, es[..|es| - 1], p, x, j)
    ensures IsEntry(env, es, p, x, j)
  {
    hide At;
    AtEarlier(env, es, es[..|es| - 1], j + 1);
  }

  /** An event that neither orders nor fills leaves the queue. */
  lemma QueueStays(env: Env, es: seq<Event>, p: Pair, q: seq<Pend>, w: seq<nat>)
    requires es != [] && IsQueue(env, es[..|es| - 1], p, q, w)
    requires !Orders(env, es, |es| - 1, p)
    requires forall k :: 0 <= k < |w| ==> !Meets(env, es, |es| - 1, p, q[k].eligible)
    ensures IsQueue(env, es, p, q, w)
  {
    hide Orders, Waits, Meets, DueTime, At;
    forall k | 0 <= k < |w| ensures w[k] < |es| && Waits(env, es, w[k], p, |es|) && IsEntry(env, es, p, q[k], w[k]) {
      WaitsOneMore(env, es, w[k], p);
      WaitsBefore(env, es[..|es| - 1], w[k], p, |es| - 1);
      EntryOneMore(env, es, p, q[k], w[k]);
    }
    forall j | Waits(env, es, j, p, |es|) ensures j in w {
      WaitsOneMore(env, es, j, p);
    }
  }

  lemma WaitsBefore(env: Env, es: seq<Event>, j: nat, p: Pair, i: nat)
    requires i <= |es| && Waits(env, es, j, p, i)
    ensures j < i && Orders(env, es, j, p)
  {
  }

  lemma QueueGrows(env: Env, es: seq<Event>, p: Pair, q: seq<Pend>, w: seq<nat>, x: Pend)
    requires es != [] && IsQueue(env, es[..|es| - 1], p, q, w)
    requires Orders(env, es, |es| - 1, p) && IsEntry(env, es, p, x, |es| - 1)
    ensures IsQueue(env, es, p, q + [x], w + [|es| - 1])
  {
    hide Orders, Waits, DueTime, At;
    var i := |es| - 1;
    NoMeeting(env, es, i, p);
    forall k | 0 <= k < |w| ensures w[k] < i && Waits(env, es, w[k], p, |es|) && IsEntry(env, es, p, q[k], w[k]) {
      WaitsOneMore(env, es, w[k], p);
      WaitsBefore(env, es[..i], w[k], p, i);
      EntryOneMore(env, es, p, q[k], w[k]);
    }
    WaitsOneMore(env, es, i, p);
    forall j | Waits(env, es, j, p, |es|) ensures j in w + [i] {
      WaitsOneMore(env, es, j, p);
    }
  }

  lemma NoMeeting(env: Env, es: seq<Event>, i: nat, p: Pair)
    requires i < |es| && Orders(env, es, i, p)
    ensures forall due: int {:trigger Meets(env, es, i, p, due)} :: !Meets(env, es, i, p, due)
  {
    hide At;
  }

  /** A tick takes the due front of the queue. */
  lemma QueueShrinks(env: Env, es: seq<Event>, p: Pair, q: seq<Pend>, w: seq<nat>, n: nat)
    requires es != [] && IsQueue(env, es[..|es| - 1], p, q, w) && n <= |q| && es[|es| - 1].TickEvent?
    requires forall k :: 0 <= k < |w| ==> (k < n <==> Meets(env, es, |es| - 1, p, q[k].eligible))
    ensures IsQueue(env, es, p, q[n..], w[n..])
  {
    hide Waits, Meets, DueTime, At;
    var i := |es| - 1;
    forall k | 0 <= k < |w|
      ensures w[k] < |es| && (Waits(env, es, w[k], p, |es|) <==> n <= k) && IsEntry(env, es, p, q[k], w[k])
    {
      WaitsOneMore(env, es, w[k], p);
      WaitsBefore(env, es[..i], w[k], p, i);
      EntryOneMore(env, es, p, q[k], w[k]);
    }
    forall j | Waits(env, es, j, p, |es|) ensures j in w[n..] {
      WaitsOneMore(env, es, j, p);
      var k :| 0 <= k < |w| && w[k] == j;
      assert w[n..][k - n] == j;
    }
  }

  /** Later changes are due later. */
  lemma QueueIsSorted(env: Env, es: seq<Event>, p: Pair, q: seq<Pend>, w: seq<nat>, k: nat, l: nat)
    requires IsQueue(env, es, p, q, w) && ReceiptsInOrder(es) && k <= l < |q|
    ensures q[k].eligible <= q[l].eligible
  {
    hide Orders, Meets, At;
    assert Waits(env, es, w[k], p, |es|) && Waits(env, es, w[l], p, |es|);
    assert IsEntry(env, es, p, q[k], w[k]) && IsEntry(env, es, p, q[l], w[l]);
  }

  lemma {:induction false} Queues(env: Env, es: seq<Event>, p: Pair) returns (w: seq<nat>)
    requires ReceiptsInOrder(es)
    ensures Play(env, Init, es).eliminatedAt.None? ==> IsQueue(env, es, p, PendingOf(Play(env, Init, es), p), w)
    decreases |es|
  {
    hide IsQueue, Accept, OnTick, Boundary, Orders, Meets;
    if es == [] {
      w := [];
      NothingQueued(env, p);
    } else {
      var front, i := es[..|es| - 1], |es| - 1;
      var s := Play(env, Init, front);
      PlayLast(env, Init, es);
      AtFront(env, es, i);
      w := Queues(env, front, p);
      match es[i]
      case DayEvent(b) =>
        DayKeepsQueues(env, s, b);
        NeitherOrders(env, es, p);
        NoTickNoMeeting(env, es, p);
        if Play(env, Init, es).eliminatedAt.None? {
          QueueStays(env, es, p, PendingOf(s, p), w);
        }
      case ReceiptEvent(r) => w := QueueAfterReceipt(env, es, p, w);
      case TickEvent(tick) => w := QueueAfterTick(env, es, p, w);
    }
  }

  lemma NothingQueued(env: Env, p: Pair)
    ensures IsQueue(env, [], p, PendingOf(Init, p), [])
  {
  }

  lemma NeitherOrders(env: Env, es: seq<Event>, p: Pair)
    requires es != [] && !es[|es| - 1].ReceiptEvent?
    ensures !Orders(env, es, |es| - 1, p)
  {
  }

  lemma QueueAfterReceipt(env: Env, es: seq<Event>, p: Pair, before: seq<nat>) returns (w: seq<nat>)
    requires es != [] && es[|es| - 1].ReceiptEvent?
    requires var s := Play(env, Init, es[..|es| - 1]);
             s.eliminatedAt.None? ==> IsQueue(env, es[..|es| - 1], p, PendingOf(s, p), before)
    ensures Play(env, Init, es).eliminatedAt.None? ==> IsQueue(env, es, p, PendingOf(Play(env, Init, es), p), w)
  {
    hide IsQueue, Accept, Meets, Play;
    var i := |es| - 1;
    var s, r := Play(env, Init, es[..i]), es[i].r;
    PlayLast(env, Init, es);
    AtFront(env, es, i);
    AtNext(env, es, i);
    AcceptQueues(env, s, r, p);
    AcceptFrame(env, s, r);
    w := before;
    if s.eliminatedAt.None? {
      if Orders(env, es, i, p) {
        w := before + [i];
        QueueGrows(env, es, p, PendingOf(s, p), before, Pend(r.tRecv + env.rules.fillDelay, Get(Accept(env, s, r).declared, p), r.seqNo));
      } else {
        NoTickNoMeeting(env, es, p);
        QueueStays(env, es, p, PendingOf(s, p), before);
      }
    }
  }

  lemma NoTickNoMeeting(env: Env, es: seq<Event>, p: Pair)
    requires es != [] && !es[|es| - 1].TickEvent?
    ensures forall due: int {:trigger Meets(env, es, |es| - 1, p, due)} :: !Meets(env, es, |es| - 1, p, due)
  {
  }

  lemma QueueAfterTick(env: Env, es: seq<Event>, p: Pair, before: seq<nat>) returns (w: seq<nat>)
    requires es != [] && es[|es| - 1].TickEvent? && ReceiptsInOrder(es)
    requires var s := Play(env, Init, es[..|es| - 1]);
             s.eliminatedAt.None? ==> IsQueue(env, es[..|es| - 1], p, PendingOf(s, p), before)
    ensures Play(env, Init, es).eliminatedAt.None? ==> IsQueue(env, es, p, PendingOf(Play(env, Init, es), p), w)
  {
    hide IsQueue, OnTick, Play, Orders;
    var i := |es| - 1;
    var s, tick := Play(env, Init, es[..i]), es[i].tick;
    PlayLast(env, Init, es);
    TickQueues(env, s, tick, p);
    TickFrame(env, s, tick);
    NeitherOrders(env, es, p);
    w := before;
    if s.eliminatedAt.None? {
      QueuedInUniverse(env, es[..i], p, PendingOf(s, p), before);
      var q := PendingOf(s, p);
      var n := if p == tick.a && tick.a in env.universe && env.start <= tick.t then EligibleCount(q, tick.t) else 0;
      DueFront(env, es, p, q, before, n);
      assert |before| == |q| by {
        SameLength(env, es[..i], p, q, before);
      }
      w := before[n..];
      QueueShrinks(env, es, p, q, before, n);
      assert q[0..] == q;
    }
  }

  lemma SameLength(env: Env, es: seq<Event>, p: Pair, q: seq<Pend>, w: seq<nat>)
    requires IsQueue(env, es, p, q, w)
    ensures |w| == |q|
  {
  }

  /** Only pairs of the universe are queued. */
  lemma QueuedInUniverse(env: Env, es: seq<Event>, p: Pair, q: seq<Pend>, w: seq<nat>)
    requires IsQueue(env, es, p, q, w)
    ensures q != [] ==> p in env.universe
  {
    hide At, Accept;
    if q != [] {
      assert Waits(env, es, w[0], p, |es|);
      AtNext(env, es, w[0]);
      ChangeIsListed(env, At(env, es, w[0]), es[w[0]].r, p);
    }
  }

  /** The due part of a queue is its front. */
  lemma DueFront(env: Env, es: seq<Event>, p: Pair, q: seq<Pend>, w: seq<nat>, n: nat)
    requires es != [] && es[|es| - 1].TickEvent? && ReceiptsInOrder(es) && IsQueue(env, es[..|es| - 1], p, q, w)
    requires q != [] ==> p in env.universe
    requires var tick := es[|es| - 1].tick;
             n == if p == tick.a && tick.a in env.universe && env.start <= tick.t then EligibleCount(q, tick.t) else 0
    ensures forall k :: 0 <= k < |w| ==> (k < n <==> Meets(env, es, |es| - 1, p, q[k].eligible))
  {
    var front, tick := es[..|es| - 1], es[|es| - 1].tick;
    CountsDue(q, tick.t);
    assert ReceiptsInOrder(front);
    forall k, l | 0 <= k <= l < |q| ensures q[k].eligible <= q[l].eligible {
      QueueIsSorted(env, front, p, q, w, k, l);
    }
    assert |w| == |q|;
    hide IsQueue, ReceiptsInOrder;
  }

  // ---------------------------------------------------------------- one fill

  /** The tick carries a quote that makes sense. */
  predicate Quoted(tick: Tick)
  {
    tick.b.Some? && tick.k.Some? && 0.0 < tick.b.value <= tick.k.value
  }

  /** A buy pays the ask and a sale gets the bid; without a quote, half a spread over or under the mid. */
  predicate PricedAs(env: Env, tick: Tick, f: Fill)
  {
    f.px == if Quoted(tick) then (if f.dq > 0.0 then tick.k.value else tick.b.value)
            else if f.dq > 0.0 then tick.p + tick.p * env.rules.halfSpreadBps / 10000.0
            else tick.p - tick.p * env.rules.halfSpreadBps / 10000.0
  }

  /** The basis points a pair's fills cost. */
  function FeeBpsOf(env: Env, p: Pair): real
  {
    if p in env.universe && env.universe[p] in env.rules.feeBps then env.rules.feeBps[env.universe[p]] else env.rules.feeDefault
  }

  /** The book at a tick, before anything fills. */
  function MarkedBy(b: Book, tick: Tick): Book
  {
    b.(marks := b.marks[tick.a := tick.p])
  }

  /** The size brings the pair to its target share of the equity at the mid, and nothing else moves; the fee is charged
      on what is traded at the price paid. */
  ghost predicate SizedAs(env: Env, before: Book, after: Book, tick: Tick, f: Fill)
  {
    && f.dq != 0.0
    && (Get(before.qty, tick.a) + f.dq) * tick.p == f.target * EquityOf(before)
    && Get(after.qty, tick.a) == Get(before.qty, tick.a) + f.dq
    && (forall p :: p != tick.a ==> Get(after.qty, p) == Get(before.qty, p) && Get(after.avg, p) == Get(before.avg, p))
    && after.marks == before.marks && after.carry == before.carry
    && after.fees == before.fees + FeeBpsOf(env, tick.a) / 10000.0 * Abs(f.dq) * f.px
    && f.equity == EquityOf(after)
  }

  lemma DesiredIs(target: real, equity: real, mid: Price)
    ensures Desired(target, equity, mid) * mid == target * equity
  {
  }

  lemma QuoteIs(env: Env, tick: Tick, f: Fill)
    requires var (bid, ask) := Quote(tick, env.rules.halfSpreadBps);
             f.px == if f.dq > 0.0 then ask else bid
    ensures PricedAs(env, tick, f)
  {
  }

  lemma FeeIs(env: Env, p: Pair, dq: real, px: real)
    ensures Fee(dq, px, FeeRate(env, p)) == FeeBpsOf(env, p) / 10000.0 * Abs(dq) * px
  {
  }

  lemma TradedToIs(env: Env, b: Book, tick: Tick, dq: real, px: real, target: real)
    requires dq == Desired(target, EquityOf(b), tick.p) - Get(b.qty, tick.a) && dq != 0.0
    ensures var after := TradedTo(env, b, tick.a, dq, px, target);
            && Get(after.qty, tick.a) == Get(b.qty, tick.a) + dq
            && (forall p :: p != tick.a ==> Get(after.qty, p) == Get(b.qty, p) && Get(after.avg, p) == Get(b.avg, p))
            && after.marks == b.marks && after.carry == b.carry
            && after.fees == b.fees + FeeBpsOf(env, tick.a) / 10000.0 * Abs(dq) * px
  {
    hide EquityOf, FeeBpsOf, FeeRate, Fee, Trade;
    TradeFrame(b, tick.a, dq, px, FeeRate(env, tick.a));
    TradeQty(b, tick.a, dq, px, FeeRate(env, tick.a));
    FeeIs(env, tick.a, dq, px);
    if target == 0.0 {
      NothingDesired(EquityOf(b), tick.p);
    }
  }

  /** What a fill does, from the last due entry of the queue. */
  lemma FillIs(env: Env, s: State, tick: Tick, n: nat)
    requires 0 < n <= |PendingOf(s, tick.a)|
    ensures var o, last := FillAt(env, s, tick, n), PendingOf(s, tick.a)[n - 1];
            if Get(s.book.qty, tick.a) * tick.p == last.target * EquityOf(s.book) then o.fills == s.fills && o.book == s.book
            else
              && |o.fills| == |s.fills| + 1 && o.fills[..|s.fills|] == s.fills
              && var f := o.fills[|s.fills|];
                 && f.t == tick.t && f.pair == tick.a && f.target == last.target && f.seqNo == last.seqNo
                 && PricedAs(env, tick, f) && SizedAs(env, s.book, o.book, tick, f)
  {
    hide EquityOf, Quote, Desired, TradedTo, FeeBpsOf, PricedAs;
    var last := PendingOf(s, tick.a)[n - 1];
    var e, q := EquityOf(s.book), Get(s.book.qty, tick.a);
    var d := Desired(last.target, e, tick.p);
    DesiredIs(last.target, e, tick.p);
    SameProduct(d, q, tick.p);
    if d - q != 0.0 {
      var o := FillAt(env, s, tick, n);
      var f := o.fills[|s.fills|];
      TradedToIs(env, s.book, tick, d - q, f.px, last.target);
      QuoteIs(env, tick, f);
    }
  }

  lemma SameProduct(x: real, y: real, p: Price)
    ensures x * p == y * p <==> x == y
  {
    if x * p == y * p {
      assert (x - y) * p == 0.0;
    }
  }

  // ---------------------------------------------------------------- every fill

  /** Event `j` is the last change of the pair's target that is due at tick `i`, and no tick met it before. */
  ghost predicate LastDue(env: Env, es: seq<Event>, j: nat, i: nat, p: Pair)
    requires i < |es|
  {
    && Waits(env, es, j, p, i) && Meets(env, es, i, p, DueTime(env, es, j))
    && forall l :: j < l < i && Orders(env, es, l, p) ==> es[i].tick.t < DueTime(env, es, l)
  }

  /** Fill `f` was made at a tick between the states `s` and `o`, for a receipt after which the state was `ordered`. */
  ghost predicate FillFits(env: Env, s: State, o: State, tick: Tick, order: Event, ordered: State, f: Fill)
  {
    && f.pair == tick.a && f.t == tick.t && f.pair in env.universe
    && order.ReceiptEvent? && (f.pair, Lev(f.target)) in EntriesOf(order) && f.target == Get(ordered.declared, f.pair) && f.seqNo == order.r.seqNo
    && PricedAs(env, tick, f)
    && SizedAs(env, MarkedBy(s.book, tick), o.book, tick, f)
  }

  /** Fill `f`, the `k`-th of the run, was made at tick `i` for the change of event `j`. */
  ghost predicate FilledAt(env: Env, es: seq<Event>, k: nat, f: Fill, i: nat, j: nat)
    requires i < |es|
  {
    && es[i].TickEvent? && j < i && LastDue(env, es, j, i, f.pair) && |At(env, es, i).fills| == k
    && FillFits(env, At(env, es, i), At(env, es, i + 1), es[i].tick, es[j], At(env, es, j + 1), f)
  }

  function EntriesOf(e: Event): seq<(Pair, Lev)>
  {
    if e.ReceiptEvent? && e.r.targets.Dict? then e.r.targets.entries else []
  }

  /** The queue of the tick's pair, seen from the events: its due front ends with the last due change. */
  lemma LastIsLastDue(env: Env, es: seq<Event>, q: seq<Pend>, w: seq<nat>, n: nat)
    requires es != [] && es[|es| - 1].TickEvent? && ReceiptsInOrder(es)
    requires var tick := es[|es| - 1].tick;
             && IsQueue(env, es[..|es| - 1], tick.a, q, w) && tick.a in env.universe && env.start <= tick.t
             && n == EligibleCount(q, tick.t) && n > 0
    ensures |w| == |q| && w[n - 1] < |es| - 1 && LastDue(env, es, w[n - 1], |es| - 1, es[|es| - 1].tick.a)
    ensures IsEntry(env, es, es[|es| - 1].tick.a, q[n - 1], w[n - 1])
  {
    hide Orders, Meets, At, IsEntry, DueTime, ReceiptsInOrder, EligibleCount;
    var front, i, tick := es[..|es| - 1], |es| - 1, es[|es| - 1].tick;
    var p, j := tick.a, w[n - 1];
    DueFront(env, es, p, q, w, n);
    assert Waits(env, front, j, p, i);
    WaitsSame(env, es, j, p);
    EntryOneMore(env, es, p, q[n - 1], j);
    DueOfEntry(env, es, p, q[n - 1], j);
    forall l | j < l < i && Orders(env, es, l, p) ensures tick.t < DueTime(env, es, l) {
      LaterWaits(env, es, j, l, p);
      WaitsSame(env, es, l, p);
      var m :| 0 <= m < |w| && w[m] == l;
      EntryOneMore(env, es, p, q[m], l);
      DueOfEntry(env, es, p, q[m], l);
      assert n <= m;
      MeetsIs(env, es, p, q[m].eligible);
    }
  }

  lemma DueOfEntry(env: Env, es: seq<Event>, p: Pair, x: Pend, j: nat)
    requires j < |es| && IsEntry(env, es, p, x, j)
    ensures x.eligible == DueTime(env, es, j)
  {
  }

  lemma MeetsIs(env: Env, es: seq<Event>, p: Pair, due: int)
    requires es != [] && es[|es| - 1].TickEvent? && es[|es| - 1].tick.a == p && env.start <= es[|es| - 1].tick.t
    ensures Meets(env, es, |es| - 1, p, due) <==> due <= es[|es| - 1].tick.t
  {
  }

  lemma WaitsSame(env: Env, es: seq<Event>, j: nat, p: Pair)
    requires es != []
    ensures Waits(env, es[..|es| - 1], j, p, |es| - 1) <==> Waits(env, es, j, p, |es| - 1)
  {
    WaitsEarlier(env, es, es[..|es| - 1], j, p);
  }

  /** What an event is does not depend on the events after it. */
  lemma OrdersEarlier(env: Env, es: seq<Event>, front: seq<Event>, j: nat, p: Pair)
    requires front <= es && j < |front|
    ensures Orders(env, front, j, p) <==> Orders(env, es, j, p)
    ensures DueTime(env, front, j) == DueTime(env, es, j)
    ensures forall due: int {:trigger Meets(env, front, j, p, due)} :: Meets(env, front, j, p, due) <==> Meets(env, es, j, p, due)
  {
    hide At, AsMap;
    AtEarlier(env, es, front, j);
    AtEarlier(env, es, front, j + 1);
  }

  lemma WaitsEarlier(env: Env, es: seq<Event>, front: seq<Event>, j: nat, p: Pair)
    requires front <= es
    ensures Waits(env, front, j, p, |front|) <==> Waits(env, es, j, p, |front|)
  {
    hide Orders, Meets, DueTime;
    if j < |front| {
      OrdersEarlier(env, es, front, j, p);
      var due := DueTime(env, es, j);
      forall k | j < k < |front| ensures Meets(env, front, k, p, due) <==> Meets(env, es, k, p, due) {
        OrdersEarlier(env, es, front, k, p);
      }
    }
  }

  /** A change after one that waits is due later, so it waits too. */
  lemma LaterWaits(env: Env, es: seq<Event>, j: nat, l: nat, p: Pair)
    requires es != [] && ReceiptsInOrder(es) && j < l < |es| - 1
    requires Waits(env, es, j, p, |es| - 1) && Orders(env, es, l, p)
    ensures Waits(env, es, l, p, |es| - 1)
  {
    hide At;
    assert DueTime(env, es, j) <= DueTime(env, es, l);
    forall k | l < k < |es| - 1 ensures !Meets(env, es, k, p, DueTime(env, es, l)) {
      assert !Meets(env, es, k, p, DueTime(env, es, j));
    }
  }

  lemma FilledLater(env: Env, es: seq<Event>, k: nat, f: Fill, i: nat, j: nat)
    requires es != [] && i < |es| - 1 && FilledAt(env, es[..|es| - 1], k, f, i, j)
    ensures FilledAt(env, es, k, f, i, j)
  {
    hide At, LastDue, FillFits;
    var front := es[..|es| - 1];
    AtEarlier(env, es, front, i);
    AtEarlier(env, es, front, i + 1);
    AtEarlier(env, es, front, j + 1);
    LastDueLater(env, es, front, j, i, f.pair);
  }

  lemma AtEarlier(env: Env, es: seq<Event>, front: seq<Event>, i: nat)
    requires front <= es && i <= |front|
    ensures At(env, front, i) == At(env, es, i)
  {
    assert front[..i] == es[..i];
  }

  lemma LastDueLater(env: Env, es: seq<Event>, front: seq<Event>, j: nat, i: nat, p: Pair)
    requires front <= es && i < |front| && front[i].TickEvent? && LastDue(env, front, j, i, p)
    ensures LastDue(env, es, j, i, p)
  {
    hide At;
    AtEarlier(env, es, front, j);
    AtEarlier(env, es, front, j + 1);
    forall l | j <= l < i ensures Orders(env, front, l, p) == Orders(env, es, l, p) && DueTime(env, front, l) == DueTime(env, es, l) {
      AtEarlier(env, es, front, l);
      AtEarlier(env, es, front, l + 1);
    }
    forall k | j < k <= i ensures Meets(env, front, k, p, DueTime(env, es, j)) == Meets(env, es, k, p, DueTime(env, es, j)) {
    }
  }

  /** Tick `i` makes one fill, for the change of event `j`, or it rightly makes none. */
  ghost predicate FillsOrRests(env: Env, es: seq<Event>, i: nat, j: nat)
    requires i < |es| && es[i].TickEvent?
  {
    var s, o := At(env, es, i), At(env, es, i + 1);
    || (|o.fills| == |s.fills| + 1 && o.fills[..|s.fills|] == s.fills && FilledAt(env, es, |s.fills|, o.fills[|s.fills|], i, j))
    || (o.fills == s.fills && QuietTick(env, es, i))
  }

  /** What the last tick of a run does. */
  lemma TickFills(env: Env, es: seq<Event>) returns (j: nat)
    requires es != [] && es[|es| - 1].TickEvent? && ReceiptsInOrder(es)
    ensures FillsOrRests(env, es, |es| - 1, j)
  {
    hide IsQueue, OnTick, FilledAt, QuietTick, ReceiptsInOrder, IsEntry, LastDue;
    var i := |es| - 1;
    var s, tick := At(env, es, i), es[i].tick;
    AtNext(env, es, i);
    FrontInOrder(es);
    j := 0;
    var w := Queues(env, es[..i], tick.a);
    var q := PendingOf(s, tick.a);
    var n := EligibleCount(q, tick.t);
    if s.eliminatedAt.None? && tick.a in env.universe && env.start <= tick.t && n > 0 {
      LastIsLastDue(env, es, q, w, n);
      j := w[n - 1];
      DueTickFills(env, es, n, j);
    } else {
      TickIsQuiet(env, s, tick);
      QuietIfNothingDue(env, es, w);
    }
  }

  lemma FrontInOrder(es: seq<Event>)
    requires es != [] && ReceiptsInOrder(es)
    ensures ReceiptsInOrder(es[..|es| - 1])
  {
  }

  lemma DueTickFills(env: Env, es: seq<Event>, n: nat, j: nat)
    requires es != [] && es[|es| - 1].TickEvent?
    requires var i := |es| - 1;
             var s, tick := At(env, es, i), es[i].tick;
             && s.eliminatedAt.None? && tick.a in env.universe && env.start <= tick.t
             && 0 < n == EligibleCount(PendingOf(s, tick.a), tick.t)
             && LastDue(env, es, j, i, tick.a) && j < i && IsEntry(env, es, tick.a, PendingOf(s, tick.a)[n - 1], j)
    ensures FillsOrRests(env, es, |es| - 1, j)
  {
    hide At, OnTick, FillAt, LastDue, PricedAs, SizedAs, EquityOf, QuietTick, Accept;
    var i := |es| - 1;
    var s, tick := At(env, es, i), es[i].tick;
    AtNext(env, es, i);
    TickIsFill(env, s, tick);
    FillIs(env, s.(book := Mark(s.book, tick)), tick, n);
    LastDueOrders(env, es, j, i, tick.a);
    ListedOrder(env, es, j, tick.a);
    QuietIfSized(env, es, i, j);
  }

  lemma ListedOrder(env: Env, es: seq<Event>, j: nat, p: Pair)
    requires j < |es| && Orders(env, es, j, p)
    ensures (p, Lev(Get(At(env, es, j + 1).declared, p))) in EntriesOf(es[j])
  {
    hide At, Accept;
    AtNext(env, es, j);
    ChangeIsListed(env, At(env, es, j), es[j].r, p);
  }

  /** The tick fills nothing by right: the book is dead, the pair or the time is outside, no change is due, or the last
      due one is met by what is held. */
  ghost predicate QuietTick(env: Env, es: seq<Event>, i: nat)
    requires i < |es| && es[i].TickEvent?
  {
    var s, p := At(env, es, i), es[i].tick.a;
    || s.eliminatedAt.Some? || p !in env.universe || es[i].tick.t < env.start
    || (forall j: nat :: !LastDue(env, es, j, i, p))
    || (exists j: nat :: LastDue(env, es, j, i, p) && j < i &&
          Get(s.book.qty, p) * es[i].tick.p == Get(At(env, es, j + 1).declared, p) * EquityOf(MarkedBy(s.book, es[i].tick)))
  }

  lemma LastDueOrders(env: Env, es: seq<Event>, j: nat, i: nat, p: Pair)
    requires i < |es| && LastDue(env, es, j, i, p)
    ensures j < i && Orders(env, es, j, p)
  {
  }

  lemma QuietIfSized(env: Env, es: seq<Event>, i: nat, j: nat)
    requires i < |es| && es[i].TickEvent? && LastDue(env, es, j, i, es[i].tick.a) && j < i
    ensures var s, p := At(env, es, i), es[i].tick.a;
            Get(s.book.qty, p) * es[i].tick.p == Get(At(env, es, j + 1).declared, p) * EquityOf(MarkedBy(s.book, es[i].tick))
            ==> QuietTick(env, es, i)
  {
    hide LastDue, At;
  }

  lemma TickIsFill(env: Env, s: State, tick: Tick)
    requires s.eliminatedAt.None? && tick.a in env.universe && env.start <= tick.t && EligibleCount(PendingOf(s, tick.a), tick.t) > 0
    ensures OnTick(env, s, tick) == FillAt(env, s.(book := Mark(s.book, tick)), tick, EligibleCount(PendingOf(s, tick.a), tick.t))
  {
    hide FillAt;
  }

  lemma TickIsQuiet(env: Env, s: State, tick: Tick)
    requires !(s.eliminatedAt.None? && tick.a in env.universe && env.start <= tick.t && EligibleCount(PendingOf(s, tick.a), tick.t) > 0)
    ensures OnTick(env, s, tick).fills == s.fills
  {
    hide FillAt;
  }

  lemma QuietIfNothingDue(env: Env, es: seq<Event>, w: seq<nat>)
    requires es != [] && es[|es| - 1].TickEvent? && ReceiptsInOrder(es)
    requires var i := |es| - 1;
             var s, p := At(env, es, i), es[i].tick.a;
             && (s.eliminatedAt.None? ==> IsQueue(env, es[..i], p, PendingOf(s, p), w))
             && !(s.eliminatedAt.None? && p in env.universe && env.start <= es[i].tick.t && EligibleCount(PendingOf(s, p), es[i].tick.t) > 0)
    ensures QuietTick(env, es, |es| - 1)
  {
    hide Orders, At;
    var i := |es| - 1;
    var s, p, tick := At(env, es, i), es[i].tick.a, es[i].tick;
    if s.eliminatedAt.None? && p in env.universe && env.start <= tick.t {
      var q := PendingOf(s, p);
      DueFront(env, es, p, q, w, 0);
      forall j: nat ensures !LastDue(env, es, j, i, p) {
        if Waits(env, es, j, p, i) {
          WaitsSame(env, es, j, p);
          assert Waits(env, es[..i], j, p, |es[..i]|);
          assert j in w;
          var k :| 0 <= k < |w| && w[k] == j;
          EntryOneMore(env, es, p, q[k], j);
        }
      }
    }
  }

  /** Other events record no fill. */
  lemma OnlyTicksFill(env: Env, s: State, e: Event)
    requires !e.TickEvent?
    ensures Step(env, s, e).fills == s.fills
  {
    hide Accept, Boundary;
    match e
    case DayEvent(b) => BoundaryFrame(env, s, b);
    case ReceiptEvent(r) => AcceptFrame(env, s, r);
  }

  /**
   Every recorded fill was made at a tick of its pair, at that tick's time, for the last change of the pair's target
   that was due and had met no tick before. A buy paid the quoted ask and a sale got the quoted bid; without a usable
   quote the price was the mid plus or minus half the spread. The size brought the pair to the target's share of the
   equity at the mid, and the fee was charged on it.
   */
  lemma {:induction false} EveryFillIsDue(env: Env, es: seq<Event>, k: nat) returns (i: nat, j: nat)
    requires ReceiptsInOrder(es) && k < |Play(env, Init, es).fills|
    ensures i < |es| && FilledAt(env, es, k, Play(env, Init, es).fills[k], i, j)
    decreases |es|
  {
    hide FilledAt, Step, QuietTick;
    var last := |es| - 1;
    var front := es[..last];
    AtFront(env, es, last);
    AtNext(env, es, last);
    var before := At(env, es, last);
    if es[last].TickEvent? {
      j := TickFills(env, es);
      if k == |before.fills| {
        i := last;
        return;
      }
    } else {
      OnlyTicksFill(env, before, es[last]);
    }
    assert Play(env, Init, es).fills[k] == before.fills[k];
    i, j := EveryFillIsDue(env, front, k);
    FilledLater(env, es, k, before.fills[k], i, j);
  }

  /** And every tick that meets a due change fills it, unless the pair already holds what the target asks for. */
  lemma DueChangesFill(env: Env, es: seq<Event>)
    requires ReceiptsInOrder(es) && es != [] && es[|es| - 1].TickEvent? && !QuietTick(env, es, |es| - 1)
    ensures |Play(env, Init, es).fills| == |At(env, es, |es| - 1).fills| + 1
  {
    hide FilledAt, QuietTick;
    AtFront(env, es, |es| - 1);
    var j := TickFills(env, es);
  }
}
