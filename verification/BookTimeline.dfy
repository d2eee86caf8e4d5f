/**
 The order in which a replay sees its day ends, receipts and ticks (sn89_signals/agent_books.py:512-537): all of them
 through the end, in time order; at one instant the day end first, then the receipts, then the ticks.
 */
module BookTimeline {
  import opened Wrappers
  import opened AgentBooks
  import opened Sorting
  import opened BookFills

  function TimeOf(e: Event): int
  {
    match e
    case DayEvent(b) => b
    case ReceiptEvent(r) => r.tRecv
    case TickEvent(tick) => tick.t
  }

  /** At one instant a day end comes before receipts, and those before ticks. */
  function Rank(e: Event): nat
  {
    match e
    case DayEvent(_) => 0
    case ReceiptEvent(_) => 1
    case TickEvent(_) => 2
  }

  predicate NotAfter(x: Event, y: Event)
  {
    TimeOf(x) < TimeOf(y) || (TimeOf(x) == TimeOf(y) && Rank(x) <= Rank(y))
  }

  function ReceiptsOf(es: seq<Event>): seq<Receipt>
  {
    if es == [] then [] else (if es[0].ReceiptEvent? then [es[0].r] else []) + ReceiptsOf(es[1..])
  }

  function TicksOf(es: seq<Event>): seq<Tick>
  {
    if es == [] then [] else (if es[0].TickEvent? then [es[0].tick] else []) + TicksOf(es[1..])
  }

  function DaysOf(es: seq<Event>): seq<int>
  {
    if es == [] then [] else (if es[0].DayEvent? then [es[0].b] else []) + DaysOf(es[1..])
  }

  /** The day ends from `b` through `end`. */
  function DaysThrough(b: int, end: int): seq<int>
    decreases end - b
  {
    if end < b then [] else [b] + DaysThrough(b + 86_400_000, end)
  }

  /** How many leading receipts, or ticks, are not after the end. */
  function ReceiptsBy(rs: seq<Receipt>, end: int): seq<Receipt>
  {
    if rs == [] || end < rs[0].tRecv then [] else [rs[0]] + ReceiptsBy(rs[1..], end)
  }

  function TicksBy(tk: seq<Tick>, end: int): seq<Tick>
  {
    if tk == [] || end < tk[0].t then [] else [tk[0]] + TicksBy(tk[1..], end)
  }

  lemma FirstOf(e: Event, rest: seq<Event>)
    ensures ReceiptsOf([e] + rest) == (if e.ReceiptEvent? then [e.r] else []) + ReceiptsOf(rest)
    ensures TicksOf([e] + rest) == (if e.TickEvent? then [e.tick] else []) + TicksOf(rest)
    ensures DaysOf([e] + rest) == (if e.DayEvent? then [e.b] else []) + DaysOf(rest)
  {
    assert ([e] + rest)[1..] == rest;
  }

  lemma NoEvents()
    ensures ReceiptsOf([]) == [] && TicksOf([]) == [] && DaysOf([]) == []
  {
  }

  /** Every receipt, tick and day end through the end is seen, each once and in its own order. */
  lemma {:induction false} NothingIsSkipped(rs: seq<Receipt>, tk: seq<Tick>, b: int, end: int)
    ensures var es := Merge(rs, tk, b, end);
            ReceiptsOf(es) == ReceiptsBy(rs, end) && TicksOf(es) == TicksBy(tk, end) && DaysOf(es) == DaysThrough(b, end)
    decreases |rs| + |tk|, end - b
  {
    hide ReceiptsOf, TicksOf, DaysOf;
    if b <= end && (rs == [] || b <= rs[0].tRecv) && (tk == [] || b <= tk[0].t) {
      NothingIsSkipped(rs, tk, b + DAY_MS, end);
      FirstOf(DayEvent(b), Merge(rs, tk, b + DAY_MS, end));
    } else if rs != [] && rs[0].tRecv <= end && (tk == [] || rs[0].tRecv <= tk[0].t) {
      NothingIsSkipped(rs[1..], tk, b, end);
      FirstOf(ReceiptEvent(rs[0]), Merge(rs[1..], tk, b, end));
    } else if tk != [] && tk[0].t <= end {
      NothingIsSkipped(rs, tk[1..], b, end);
      FirstOf(TickEvent(tk[0]), Merge(rs, tk[1..], b, end));
    } else {
      assert Merge(rs, tk, b, end) == [];
      NoEvents();
    }
  }

  lemma {:induction false} MergeComesFrom(rs: seq<Receipt>, tk: seq<Tick>, b: int, end: int, e: Event)
    requires e in Merge(rs, tk, b, end)
    ensures match e
            case DayEvent(d) => b <= d
            case ReceiptEvent(r) => r in rs
            case TickEvent(t) => t in tk
    decreases |rs| + |tk|, end - b
  {
    if b <= end && (rs == [] || b <= rs[0].tRecv) && (tk == [] || b <= tk[0].t) {
      if e != DayEvent(b) {
        MergeComesFrom(rs, tk, b + DAY_MS, end, e);
      }
    } else if rs != [] && rs[0].tRecv <= end && (tk == [] || rs[0].tRecv <= tk[0].t) {
      if e != ReceiptEvent(rs[0]) {
        MergeComesFrom(rs[1..], tk, b, end, e);
      }
    } else if tk != [] && tk[0].t <= end {
      if e != TickEvent(tk[0]) {
        MergeComesFrom(rs, tk[1..], b, end, e);
      }
    }
  }

  /** The first event is before whatever is left of sorted receipts and ticks. */
  lemma HeadFirst(x: Event, rs: seq<Receipt>, tk: seq<Tick>, b: int, end: int, e: Event)
    requires ReceiptsSorted(rs) && TicksSorted(tk) && e in Merge(rs, tk, b, end)
    requires b <= end ==> NotAfter(x, DayEvent(b))
    requires rs != [] ==> NotAfter(x, ReceiptEvent(rs[0]))
    requires tk != [] ==> NotAfter(x, TickEvent(tk[0]))
    requires forall d: int :: b <= d && DayEvent(d) in Merge(rs, tk, b, end) ==> d <= end
    ensures NotAfter(x, e)
  {
    MergeComesFrom(rs, tk, b, end, e);
  }

  lemma {:induction false} DaysEnd(rs: seq<Receipt>, tk: seq<Tick>, b: int, end: int, d: int)
    requires DayEvent(d) in Merge(rs, tk, b, end)
    ensures d <= end
    decreases |rs| + |tk|, end - b
  {
    if b <= end && (rs == [] || b <= rs[0].tRecv) && (tk == [] || b <= tk[0].t) {
      if d != b {
        DaysEnd(rs, tk, b + DAY_MS, end, d);
      }
    } else if rs != [] && rs[0].tRecv <= end && (tk == [] || rs[0].tRecv <= tk[0].t) {
      DaysEnd(rs[1..], tk, b, end, d);
    } else if tk != [] && tk[0].t <= end {
      DaysEnd(rs, tk[1..], b, end, d);
    }
  }

  /** Events are seen in time order, and at one instant in the order of their ranks. */
  ghost predicate InTimeOrder(es: seq<Event>)
  {
    forall i, j :: 0 <= i < j < |es| ==> NotAfter(es[i], es[j])
  }

  lemma PutFirst(x: Event, rest: seq<Event>)
    requires InTimeOrder(rest) && forall e :: e in rest ==> NotAfter(x, e)
    ensures InTimeOrder([x] + rest)
  {
    var es := [x] + rest;
    assert forall i :: 0 < i < |es| ==> es[i] == rest[i - 1];
  }

  lemma {:induction false} SeenInTimeOrder(rs: seq<Receipt>, tk: seq<Tick>, b: int, end: int)
    requires ReceiptsSorted(rs) && TicksSorted(tk)
    ensures InTimeOrder(Merge(rs, tk, b, end))
    decreases |rs| + |tk|, end - b
  {
    hide InTimeOrder;
    if b <= end && (rs == [] || b <= rs[0].tRecv) && (tk == [] || b <= tk[0].t) {
      SeenInTimeOrder(rs, tk, b + DAY_MS, end);
      AllAfter(DayEvent(b), rs, tk, b + DAY_MS, end);
      PutFirst(DayEvent(b), Merge(rs, tk, b + DAY_MS, end));
    } else if rs != [] && rs[0].tRecv <= end && (tk == [] || rs[0].tRecv <= tk[0].t) {
      SeenInTimeOrder(rs[1..], tk, b, end);
      AllAfter(ReceiptEvent(rs[0]), rs[1..], tk, b, end);
      PutFirst(ReceiptEvent(rs[0]), Merge(rs[1..], tk, b, end));
    } else if tk != [] && tk[0].t <= end {
      SeenInTimeOrder(rs, tk[1..], b, end);
      AllAfter(TickEvent(tk[0]), rs, tk[1..], b, end);
      PutFirst(TickEvent(tk[0]), Merge(rs, tk[1..], b, end));
    } else {
      NothingLeft();
    }
  }

  lemma NothingLeft()
    ensures InTimeOrder([])
  {
  }

  lemma AllAfter(x: Event, rs: seq<Receipt>, tk: seq<Tick>, b: int, end: int)
    requires ReceiptsSorted(rs) && TicksSorted(tk)
    requires b <= end ==> NotAfter(x, DayEvent(b))
    requires rs != [] ==> NotAfter(x, ReceiptEvent(rs[0]))
    requires tk != [] ==> NotAfter(x, TickEvent(tk[0]))
    ensures forall e :: e in Merge(rs, tk, b, end) ==> NotAfter(x, e)
  {
    hide NotAfter;
    forall d: int | b <= d && DayEvent(d) in Merge(rs, tk, b, end) ensures d <= end {
      DaysEnd(rs, tk, b, end, d);
    }
    forall e | e in Merge(rs, tk, b, end) ensures NotAfter(x, e) {
      HeadFirst(x, rs, tk, b, end, e);
    }
  }

  /** So the fills of a replay of sorted receipts are those the changes ask for. */
  lemma MergedReceiptsInOrder(rs: seq<Receipt>, tk: seq<Tick>, b: int, end: int)
    requires ReceiptsSorted(rs) && TicksSorted(tk)
    ensures ReceiptsInOrder(Merge(rs, tk, b, end))
  {
    SeenInTimeOrder(rs, tk, b, end);
    hide Merge;
  }

  /** Every fill of a replay was made for the last change due at a tick of its pair. */
  lemma ReplayFillsAreDue(env: Env, rs: seq<Receipt>, tk: seq<Tick>, end: int, k: nat) returns (i: nat, j: nat)
    requires ReceiptsSorted(rs) && TicksSorted(tk) && k < |Run(env, rs, tk, end).fills|
    ensures var es := Merge(rs, tk, DayStart(env.start) + DAY_MS, end);
            i < |es| && FilledAt(env, es, k, Run(env, rs, tk, end).fills[k], i, j)
  {
    hide Merge, FilledAt, Play, ReceiptsInOrder;
    var b := DayStart(env.start) + DAY_MS;
    MergedReceiptsInOrder(rs, tk, b, end);
    i, j := EveryFillIsDue(env, Merge(rs, tk, b, end), k);
  }
}
