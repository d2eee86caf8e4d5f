/**
 The agent-books engine (sn89_signals/agent_books.py): one book replayed as a state machine over
 receipts, ticks and UTC day boundaries. Money and prices are reals, times are milliseconds.
 Pairs and accounts are known by their rank in name order, so `sorted(...)` over them is numeric order.
 */
module AgentBooks {
  import opened Wrappers
  import opened Sums

  type Pair = nat
  type AssetClass = string
  type Account = nat
  type Price = r: real | r > 0.0 witness 1.0

  const DAY_MS := 86_400_000
  const WEEK_MS := 7 * DAY_MS
  const BUCKET_MS := 12 * 3_600_000
  // Weeks are counted from the first Monday midnight after the epoch.
  const MONDAY_OFFSET_MS := 4 * DAY_MS
  const EXIT_RESERVE_FROM_S := 1794009600
  const EXIT_RESERVE_PER_DAY: nat := 16
  const GROSS_SLACK := 0.000000000001

  // ---------------------------------------------------------------- inputs

  /** A row of a tick shard: mid `p` and, when quoted, bid `b` and ask `k`. */
  datatype Tick = Tick(a: Pair, t: int, p: Price, b: Option<real>, k: Option<real>)

  /** A declared leverage; booleans, strings and non-finite numbers are not leverages. */
  datatype Lev = Lev(v: real) | NotALeverage

  /** The entries of a JSON object: distinct keys, in the order they were written. */
  type Entries = es: seq<(Pair, Lev)> | forall i, j :: 0 <= i < j < |es| ==> es[i].0 != es[j].0 witness []

  datatype Targets = NotADict | Dict(entries: Entries)

  datatype Receipt = Receipt(account: Account, seqNo: int, tRecv: int, targets: Targets)

  datatype HwmBasis = Balance | Equity

  datatype Rules = Rules(
    fillDelay: nat, perPairCap: real, grossCap: real, changesPerDay: nat, excluded: set<AssetClass>,
    feeBps: map<AssetClass, real>, feeDefault: real, halfSpreadBps: real,
    elimDrawdown: real, elimEps: real, minBuckets: nat, basis: HwmBasis)

  /** The rule set in force since the first book. */
  const RULES_V1 := Rules(
    3000, 0.25, 1.0, 48, {"forex"}, map["crypto" := 2.9], 2.9, 0.0, 0.08, 0.000000000001, 4, Balance)

  /** What a replay is run under: the universe, the rules, the optional carry hook and its first instant. */
  datatype Env = Env(universe: map<Pair, AssetClass>, rules: Rules,
                     carry: Option<(Pair, real, int) -> real>, start: int)

  // ---------------------------------------------------------------- time helpers

  function WeekStart(t: int): int
  {
    (t - MONDAY_OFFSET_MS) / WEEK_MS * WEEK_MS + MONDAY_OFFSET_MS
  }

  function DayStart(t: int): int
  {
    t / DAY_MS * DAY_MS
  }

  function BucketOf(t: int): int
  {
    t / BUCKET_MS
  }

  // ---------------------------------------------------------------- small arithmetic

  function Get<K>(m: map<K, real>, k: K): real
  {
    if k in m then m[k] else 0.0
  }

  function Abs(x: real): real
  {
    if x < 0.0 then -x else x
  }

  function Max(x: real, y: real): real
  {
    if x < y then y else x
  }

  function Min(x: real, y: real): real
  {
    if y < x then y else x
  }

  /** (bid, ask): as quoted when both sides make sense, else half a spread either side of the mid. */
  function Quote(tick: Tick, halfSpreadBps: real): (real, real)
  {
    if tick.b.Some? && tick.k.Some? && tick.b.value > 0.0 && tick.k.value > 0.0 && tick.b.value <= tick.k.value then
      (tick.b.value, tick.k.value)
    else
      var h := tick.p * halfSpreadBps / 10000.0;
      (tick.p - h, tick.p + h)
  }

  function FeeRate(env: Env, pair: Pair): real
  {
    var bps := if pair in env.universe && env.universe[pair] in env.rules.feeBps
               then env.rules.feeBps[env.universe[pair]] else env.rules.feeDefault;
    bps / 10000.0
  }

  // ---------------------------------------------------------------- the book

  datatype Book = Book(qty: map<Pair, real>, avg: map<Pair, real>, realised: real, fees: real, carry: real,
                       marks: map<Pair, real>)

  const EmptyBook := Book(map[], map[], 0.0, 0.0, 0.0, map[])

  function Fee(dq: real, px: real, feeRate: real): real
  {
    feeRate * Abs(dq) * px
  }

  /** The size that holds `target` of the equity at a mid price. */
  function Desired(target: real, equity: real, mid: Price): real
  {
    if target == 0.0 then 0.0 else target * equity / mid
  }

  /** The day-end equity below which the book is eliminated. */
  function ElimFloor(ath: real, rules: Rules): real
  {
    ath * (1.0 - rules.elimDrawdown) - rules.elimEps
  }

  /** The average entry after adding `dq` at `px` to `q` held at `a`. */
  function Averaged(q: real, a: real, dq: real, px: real): real
    requires q + dq != 0.0
  {
    (q * a + dq * px) / (q + dq)
  }

  /** The profit of closing `close` units of a long (+1) or short (-1) position. */
  function ClosedPnl(close: real, sign: real, px: real, a: real): real
  {
    close * sign * (px - a)
  }

  predicate Holds(b: Book, pair: Pair)
  {
    Get(b.qty, pair) != 0.0
  }

  /** The open profit of `q` units entered at `avg`. */
  function Profit(q: real, mark: real, avg: real): real
  {
    q * (mark - avg)
  }

  function OpenPnl(b: Book): Pair -> real
  {
    (p: Pair) => Profit(Get(b.qty, p), Get(b.marks, p), Get(b.avg, p))
  }

  ghost function Unrealised(b: Book): real
  {
    Sum(b.qty.Keys, OpenPnl(b))
  }

  function BalanceOf(b: Book): real
  {
    1.0 + b.realised - b.fees - b.carry
  }

  ghost function EquityOf(b: Book): real
  {
    BalanceOf(b) + Unrealised(b)
  }

  /** One trade of `dq` at `px`: open or add (averaging the entry), reduce, close, or flip through zero. */
  function Trade(b: Book, pair: Pair, dq: real, px: real, feeRate: real): Book
  {
    if dq == 0.0 then b
    else
      var q := Get(b.qty, pair);
      var a := Get(b.avg, pair);
      var fees := b.fees + Fee(dq, px, feeRate);
      if q == 0.0 || (q > 0.0) == (dq > 0.0) then
        var nq := q + dq;
        b.(fees := fees, qty := b.qty[pair := nq], avg := b.avg[pair := Averaged(q, a, dq, px)])
      else
        var close := Min(Abs(dq), Abs(q));
        var sign := if q > 0.0 then 1.0 else -1.0;
        var realised := b.realised + ClosedPnl(close, sign, px, a);
        var rest := Abs(dq) - close;
        if rest > 0.0 then
          b.(fees := fees, realised := realised, qty := b.qty[pair := -sign * rest], avg := b.avg[pair := px])
        else
          var nq := q + dq;
          if close == Abs(q) || nq == 0.0 then
            b.(fees := fees, realised := realised, qty := b.qty[pair := 0.0], avg := b.avg[pair := 0.0])
          else
            b.(fees := fees, realised := realised, qty := b.qty[pair := nq])
  }

  /** Close every pair of `pairs` at its mark, one trade each, in order. */
  function CloseEach(env: Env, b: Book, pairs: seq<Pair>): Book
    decreases |pairs|
  {
    if pairs == [] then b
    else
      var p := pairs[0];
      CloseEach(env, Trade(b, p, -Get(b.qty, p), Get(b.marks, p), FeeRate(env, p)), pairs[1..])
  }

  // ---------------------------------------------------------------- acceptance

  datatype Reason =
    | BadTargets | UnknownPair(pair: Pair) | ExcludedClass(pair: Pair) | BadLev(pair: Pair) | PairCap(pair: Pair)
    | GrossCap | StaleSeq | DayCap | Eliminated

  function Keys(r: Receipt): set<Pair>
  {
    if r.targets.Dict? then set e <- r.targets.entries :: e.0 else {}
  }

  predicate Touches(env: Env, r: Receipt, pair: Pair)
  {
    pair in Keys(r) && pair in env.universe
  }

  function AbsTerm(m: map<Pair, real>): Pair -> real
  {
    (p: Pair) => Abs(Get(m, p))
  }

  ghost function GrossOf(declared: map<Pair, real>): real
  {
    Sum(declared.Keys, AbsTerm(declared))
  }

  /** The first entry that fails its own check, in the order the entries were written. */
  function FirstBadEntry(env: Env, es: seq<(Pair, Lev)>): Option<Reason>
  {
    if es == [] then None
    else
      var (pair, lev) := es[0];
      if pair !in env.universe then Some(UnknownPair(pair))
      else if env.universe[pair] in env.rules.excluded then Some(ExcludedClass(pair))
      else if lev.NotALeverage? then Some(BadLev(pair))
      else if Abs(lev.v) > env.rules.perPairCap then Some(PairCap(pair))
      else FirstBadEntry(env, es[1..])
  }

  /** The entries that are leverages, as a map. */
  function AsMap(es: seq<(Pair, Lev)>): map<Pair, real>
  {
    if es == [] then map[]
    else
      var m := AsMap(es[..|es| - 1]);
      var e := es[|es| - 1];
      if e.1.Lev? then m[e.0 := e.1.v] else m
  }

  ghost function CheckReceipt(env: Env, r: Receipt, declared: map<Pair, real>): Option<Reason>
  {
    if r.targets.NotADict? then Some(BadTargets)
    else
      var bad := FirstBadEntry(env, r.targets.entries);
      if bad.Some? then bad
      else if GrossOf(declared + AsMap(r.targets.entries)) > env.rules.grossCap + GROSS_SLACK then Some(GrossCap)
      else None
  }

  function Changed(targets: map<Pair, real>, declared: map<Pair, real>): map<Pair, real>
  {
    map p | p in targets && targets[p] != Get(declared, p) :: targets[p]
  }

  predicate ReducesOnly(changed: map<Pair, real>, declared: map<Pair, real>)
  {
    changed != map[] &&
    forall p :: p in changed ==>
      Get(declared, p) != 0.0 && changed[p] * Get(declared, p) >= 0.0 && Abs(changed[p]) < Abs(Get(declared, p))
  }

  predicate ChangeAllowed(used: nat, changed: map<Pair, real>, declared: map<Pair, real>, tRecv: int, rules: Rules)
  {
    used < rules.changesPerDay ||
    (tRecv >= EXIT_RESERVE_FROM_S * 1000 &&
     used < rules.changesPerDay + EXIT_RESERVE_PER_DAY && ReducesOnly(changed, declared))
  }

  /** Declared targets after an accepted change: zeros leave the map. */
  function Declare(declared: map<Pair, real>, changed: map<Pair, real>): map<Pair, real>
  {
    map p | p in declared.Keys + changed.Keys && !(p in changed && changed[p] == 0.0) ::
      if p in changed then changed[p] else declared[p]
  }

  // ---------------------------------------------------------------- the replay state

  datatype Pend = Pend(eligible: int, target: real, seqNo: int)
  datatype Fill = Fill(t: int, pair: Pair, dq: real, px: real, target: real, equity: real, seqNo: int)
  datatype DayRow = DayRow(t: int, eodEquity: real, ath: real, eliminated: bool)
  datatype WeekRow = WeekRow(weekStart: int, balance: real, unrealised: real, prevHwm: real, gain: real,
                             active: bool, buckets: nat, eliminated: bool, isPartial: bool, paid: real)

  datatype State = State(
    book: Book,
    declared: map<Pair, real>,
    pending: map<Pair, seq<Pend>>,
    changesByDay: map<int, nat>,
    lastSeq: Option<int>,
    fills: seq<Fill>,
    refused: seq<(Receipt, Reason)>,
    noops: seq<Receipt>,
    daily: seq<DayRow>,
    weeks: seq<WeekRow>,
    series: seq<(int, real)>,
    ath: real,
    hwm: real,
    buckets: set<int>,
    eliminatedAt: Option<int>,
    elimWeek: Option<int>)

  const Init := State(EmptyBook, map[], map[], map[], None, [], [], [], [], [], [], 1.0, 1.0, {}, None, None)

  function Queue(pending: map<Pair, seq<Pend>>, pair: Pair): seq<Pend>
  {
    if pair in pending then pending[pair] else []
  }

  function PendingOf(s: State, pair: Pair): seq<Pend>
  {
    Queue(s.pending, pair)
  }

  function UsedOn(s: State, day: int): nat
  {
    if day in s.changesByDay then s.changesByDay[day] else 0
  }

  // ---------------------------------------------------------------- a receipt

  function Enqueue(pending: map<Pair, seq<Pend>>, changed: map<Pair, real>, r: Receipt, delay: int)
    : map<Pair, seq<Pend>>
  {
    map p | p in pending.Keys + changed.Keys ::
      if p in changed then Queue(pending, p) + [Pend(r.tRecv + delay, changed[p], r.seqNo)] else pending[p]
  }

  /** What acceptance decides: refuse before or after the sequence number is used up, note a receipt that
      changes nothing, or take a change. */
  datatype Verdict = Refuse(why: Reason) | RefuseLate(why: Reason) | NoChange | Take(changed: map<Pair, real>)

  /** The decision on a receipt of a book that is still alive. */
  ghost function Judge(env: Env, declared: map<Pair, real>, lastSeq: Option<int>, used: nat, r: Receipt): Verdict
  {
    if lastSeq.Some? && r.seqNo <= lastSeq.value then Refuse(StaleSeq)
    else
      var why := CheckReceipt(env, r, declared);
      if why.Some? then Refuse(why.value)
      else
        var changed := Changed(AsMap(r.targets.entries), declared);
        if changed == map[] then NoChange
        else if !ChangeAllowed(used, changed, declared, r.tRecv, env.rules) then RefuseLate(DayCap)
        else Take(changed)
  }

  ghost function Accept(env: Env, s: State, r: Receipt): State
  {
    if s.eliminatedAt.Some? then s.(refused := s.refused + [(r, Eliminated)])
    else
      match Judge(env, s.declared, s.lastSeq, UsedOn(s, DayStart(r.tRecv)), r)
      case Refuse(why) => s.(refused := s.refused + [(r, why)])
      case RefuseLate(why) => s.(lastSeq := Some(r.seqNo), refused := s.refused + [(r, why)])
      case NoChange => s.(lastSeq := Some(r.seqNo), noops := s.noops + [r])
      case Take(changed) =>
        var day := DayStart(r.tRecv);
        s.(lastSeq := Some(r.seqNo),
           changesByDay := s.changesByDay[day := UsedOn(s, day) + 1],
           declared := Declare(s.declared, changed),
           pending := Enqueue(s.pending, changed, r, env.rules.fillDelay))
  }

  // ---------------------------------------------------------------- a tick

  function Mark(b: Book, tick: Tick): Book
  {
    b.(marks := b.marks[tick.a := tick.p])
  }

  /** How many entries at the front of a queue are eligible at t. */
  function EligibleCount(q: seq<Pend>, t: int): (n: nat)
    ensures n <= |q|
  {
    if q == [] || q[0].eligible > t then 0 else 1 + EligibleCount(q[1..], t)
  }

  ghost function OnTick(env: Env, s: State, tick: Tick): State
  {
    if tick.a !in env.universe then s
    else
      var s1 := s.(book := Mark(s.book, tick));
      var n := EligibleCount(PendingOf(s, tick.a), tick.t);
      if s.eliminatedAt.Some? || tick.t < env.start || n == 0 then s1
      else FillAt(env, s1, tick, n)
  }

  /** The book after a fill; a zero target leaves exactly zero. */
  function TradedTo(env: Env, b: Book, pair: Pair, dq: real, px: real, target: real): Book
  {
    var traded := Trade(b, pair, dq, px, FeeRate(env, pair));
    if target == 0.0 then traded.(qty := traded.qty[pair := 0.0]) else traded
  }

  /** The last eligible pending target of the tick's pair fills; the earlier ones are dropped. */
  ghost function FillAt(env: Env, s: State, tick: Tick, n: nat): State
    requires 0 < n <= |PendingOf(s, tick.a)|
  {
    var pair := tick.a;
    var q := PendingOf(s, pair);
    var last := q[n - 1];
    var s1 := s.(pending := if n == |q| then s.pending - {pair} else s.pending[pair := q[n..]]);
    var dq := Desired(last.target, EquityOf(s.book), tick.p) - Get(s.book.qty, pair);
    if dq == 0.0 then s1
    else
      var (bid, ask) := Quote(tick, env.rules.halfSpreadBps);
      var px := if dq > 0.0 then ask else bid;
      var book := TradedTo(env, s.book, pair, dq, px, last.target);
      var after := EquityOf(book);
      s1.(book := book,
          buckets := s.buckets + {BucketOf(tick.t)},
          fills := s.fills + [Fill(tick.t, pair, dq, px, last.target, after, last.seqNo)],
          series := s.series + [(tick.t, after)])
  }

  // ---------------------------------------------------------------- a UTC day end

  function HeldSet(b: Book): set<Pair>
  {
    set p | p in b.qty && b.qty[p] != 0.0
  }

  function Notional(q: real, mark: real): real
  {
    q * mark
  }

  /** The carry hook's charge for one open pair at a day end. */
  function CarryOn(env: Env, b: Book, p: Pair, t: int): real
  {
    if env.carry.None? then 0.0 else (env.carry.value)(p, Notional(Get(b.qty, p), Get(b.marks, p)), t)
  }

  function CarryTerm(env: Env, b: Book, t: int): Pair -> real
  {
    (p: Pair) => CarryOn(env, b, p, t)
  }

  ghost function CarryDue(env: Env, b: Book, t: int): real
  {
    Sum(HeldSet(b), CarryTerm(env, b, t))
  }

  /** The held pairs in name order. */
  function InOrder(pairs: set<Pair>): (s: seq<Pair>)
    ensures forall p :: p in s <==> p in pairs
    ensures forall i, j :: 0 <= i < j < |s| ==> s[i] < s[j]
    decreases pairs
  {
    if pairs == {} then []
    else
      var m := Least(pairs);
      [m] + InOrder(pairs - {m})
  }

  function Least(pairs: set<Pair>): (m: Pair)
    requires pairs != {}
    ensures m in pairs && forall p :: p in pairs ==> m <= p
  {
    LeastExists(pairs);
    var m :| m in pairs && forall p :: p in pairs ==> m <= p;
    m
  }

  lemma LeastExists(pairs: set<Pair>)
    requires pairs != {}
    ensures exists m :: m in pairs && forall p :: p in pairs ==> m <= p
    decreases pairs
  {
    var x :| x in pairs;
    if y :| y in pairs && y < x {
      assert y in pairs - {x};
      LeastExists(pairs - {x});
      var m :| m in pairs - {x} && forall p :: p in pairs - {x} ==> m <= p;
      forall p | p in pairs ensures m <= p {
        if p != x {
          assert p in pairs - {x};
        }
      }
      assert m in pairs;
    }
  }

  ghost function Charged(env: Env, b: Book, t: int): Book
  {
    b.(carry := b.carry + CarryDue(env, b, t))
  }

  /** Everything held is closed at its mark, nothing stays pending. */
  function CloseOut(env: Env, s: State, t: int): State
  {
    s.(book := CloseEach(env, s.book, InOrder(HeldSet(s.book))), pending := map[],
       eliminatedAt := Some(t), elimWeek := Some(WeekStart(t - 1)))
  }

  /** The drawdown rule and the day's row; an eliminated book is closed at its marks. */
  ghost function DayEnd(env: Env, s: State, t: int): State
  {
    if s.eliminatedAt.Some? then s
    else
      var b := Charged(env, s.book, t);
      var eod := EquityOf(b);
      var elim := eod < ElimFloor(s.ath, env.rules);
      var s1 := s.(book := b,
                   daily := s.daily + [DayRow(t, eod, s.ath, elim)],
                   series := s.series + [(t, eod)]);
      if elim then CloseOut(env, s1, t)
      else
        s1.(ath := Max(s.ath, eod))
  }

  /** The weekly high-water-mark row, written at a Monday 00:00. */
  ghost function WeekEnd(env: Env, s: State, t: int): State
  {
    if (t - MONDAY_OFFSET_MS) % WEEK_MS != 0 then s
    else
      var ws := t - WEEK_MS;
      var bal := BalanceOf(s.book);
      var unr := Unrealised(s.book);
      var x := if env.rules.basis == Equity then bal + unr else bal;
      var gain := Max(0.0, x - s.hwm + Min(0.0, unr));
      var active := |s.buckets| >= env.rules.minBuckets;
      var dead := s.eliminatedAt.Some? && (s.elimWeek.None? || ws >= s.elimWeek.value);
      var paid := if active && !dead then gain else 0.0;
      s.(weeks := s.weeks + [WeekRow(ws, bal, unr, s.hwm, gain, active, |s.buckets|, dead, ws < env.start, paid)],
         hwm := Max(s.hwm, x),
         buckets := {})
  }

  ghost function Boundary(env: Env, s: State, t: int): State
  {
    WeekEnd(env, DayEnd(env, s, t), t)
  }

  // ---------------------------------------------------------------- the merged run

  datatype Event = DayEvent(b: int) | ReceiptEvent(r: Receipt) | TickEvent(tick: Tick)

  ghost function Step(env: Env, s: State, e: Event): State
  {
    match e
    case DayEvent(b) => Boundary(env, s, b)
    case ReceiptEvent(r) => Accept(env, s, r)
    case TickEvent(tick) => OnTick(env, s, tick)
  }

  ghost function Play(env: Env, s: State, es: seq<Event>): State
    decreases |es|
  {
    if es == [] then s else Play(env, Step(env, s, es[0]), es[1..])
  }

  /** Receipts, ticks and the day ends from `b` on, in time order through `end`. At one instant a day
      end comes first, then the receipts, then the ticks. */
  function Merge(rs: seq<Receipt>, tk: seq<Tick>, b: int, end: int): seq<Event>
    decreases |rs| + |tk|, end - b
  {
    if b <= end && (rs == [] || b <= rs[0].tRecv) && (tk == [] || b <= tk[0].t) then
      [DayEvent(b)] + Merge(rs, tk, b + DAY_MS, end)
    else if rs != [] && rs[0].tRecv <= end && (tk == [] || rs[0].tRecv <= tk[0].t) then
      [ReceiptEvent(rs[0])] + Merge(rs[1..], tk, b, end)
    else if tk != [] && tk[0].t <= end then
      [TickEvent(tk[0])] + Merge(rs, tk[1..], b, end)
    else []
  }

  ghost function Run(env: Env, rs: seq<Receipt>, tk: seq<Tick>, end: int): State
  {
    Play(env, Init, Merge(rs, tk, DayStart(env.start) + DAY_MS, end))
  }

  // ---------------------------------------------------------------- the result

  datatype Position = Position(qty: real, avg: real, mark: real)

  datatype Result = Result(
    fills: seq<Fill>, refused: seq<(Receipt, Reason)>, noops: seq<Receipt>, daily: seq<DayRow>,
    weeks: seq<WeekRow>, series: seq<(int, real)>, eliminatedAt: Option<int>, hwm: real,
    equity: real, balance: real, unrealised: real, ath: real, positions: map<Pair, Position>,
    declared: map<Pair, real>, openWeekBuckets: nat)

  function Positions(b: Book): map<Pair, Position>
  {
    map p | p in b.qty && b.qty[p] != 0.0 :: Position(b.qty[p], Get(b.avg, p), Get(b.marks, p))
  }

  ghost function ResultOf(s: State): Result
  {
    Result(s.fills, s.refused, s.noops, s.daily, s.weeks, s.series, s.eliminatedAt, s.hwm,
           EquityOf(s.book), BalanceOf(s.book), Unrealised(s.book), s.ath, Positions(s.book),
           s.declared, |s.buckets|)
  }

  // ---------------------------------------------------------------- ordering

  predicate TicksSorted(tk: seq<Tick>)
  {
    forall i, j :: 0 <= i < j < |tk| ==> tk[i].t <= tk[j].t
  }

  predicate ReceiptsSorted(rs: seq<Receipt>)
  {
    forall i, j :: 0 <= i < j < |rs| ==> rs[i].tRecv <= rs[j].tRecv
  }
}
