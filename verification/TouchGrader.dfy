/**
 Touch grading (sn89_signals/grader.py:58-160): a call is won or lost by the level that first collects enough
 touching ticks after its commit time and by its horizon.
 */
module TouchGrader {
  import opened Wrappers

  type Price = r: real | r > 0.0 witness 1.0

  datatype Tick = Tick(t: int, p: Price)

  datatype Touch = Tp | Sl | Neither

  datatype Status = Won | Lost | Washed | Pending

  datatype Reason = TpTouch | SlTouch | HorizonExpired | NoEntryPrice | NoReason

  datatype Grade = Grade(status: Status, reason: Reason, exitAt: Option<int>, bps: Option<real>)

  /** A call: its bands in basis points, its commit time and its horizon. */
  datatype Call = Call(isLong: bool, tpBps: real, slBps: real, t0: int, horizon: int)

  function TpPrice(c: Call, entry: Price): real
  {
    if c.isLong then entry * (1.0 + c.tpBps / 10000.0) else entry * (1.0 - c.tpBps / 10000.0)
  }

  function SlPrice(c: Call, entry: Price): real
  {
    if c.isLong then entry * (1.0 - c.slBps / 10000.0) else entry * (1.0 + c.slBps / 10000.0)
  }

  /** The hit rule: the profit level is looked at first. */
  function TouchHit(p: Price, isLong: bool, tp: real, sl: real): Touch
  {
    if isLong then (if tp <= p then Tp else if p <= sl then Sl else Neither)
    else (if p <= tp then Tp else if sl <= p then Sl else Neither)
  }

  function TouchOf(c: Call, entry: Price, k: Tick): Touch
  {
    TouchHit(k.p, c.isLong, TpPrice(c, entry), SlPrice(c, entry))
  }

  predicate InRange(c: Call, k: Tick)
  {
    c.t0 < k.t <= c.horizon
  }

  predicate Touches(c: Call, entry: Price, k: Tick, level: Touch)
  {
    InRange(c, k) && TouchOf(c, entry, k) == level
  }

  /** How many of the ticks touch a level inside the call's life. */
  function Count(c: Call, entry: Price, ks: seq<Tick>, level: Touch): nat
  {
    if ks == [] then 0
    else Count(c, entry, ks[..|ks| - 1], level) + (if Touches(c, entry, ks[|ks| - 1], level) then 1 else 0)
  }

  ghost predicate InOrder(ks: seq<Tick>)
  {
    forall i, j :: 0 <= i < j < |ks| ==> ks[i].t <= ks[j].t
  }

  /** The first `i` ticks leave both levels short of `need`. */
  predicate Undecided(c: Call, entry: Price, ks: seq<Tick>, need: nat, i: nat)
    requires i <= |ks|
  {
    Count(c, entry, ks[..i], Tp) < need && Count(c, entry, ks[..i], Sl) < need
  }

  /** The tick at `i` is the one that completes the level: neither level had enough before it. */
  predicate DecidesAt(c: Call, entry: Price, ks: seq<Tick>, need: nat, i: nat, level: Touch)
    requires i < |ks|
  {
    Undecided(c, entry, ks, need, i) && Touches(c, entry, ks[i], level) && Count(c, entry, ks[..i + 1], level) == need
  }

  /** Some tick completes the level before the other is complete. */
  ghost predicate Decided(c: Call, entry: Price, ks: seq<Tick>, need: nat, level: Touch)
  {
    exists i :: 0 <= i < |ks| && DecidesAt(c, entry, ks, need, i, level)
  }

  // ---------------------------------------------------------------- counting

  lemma {:induction false} CountGrows(c: Call, entry: Price, ks: seq<Tick>, i: nat, j: nat, level: Touch)
    requires i <= j <= |ks|
    ensures Count(c, entry, ks[..i], level) <= Count(c, entry, ks[..j], level)
    decreases j
  {
    hide Touches;
    if i < j {
      CountGrows(c, entry, ks, i, j - 1, level);
      assert ks[..j][..j - 1] == ks[..j - 1];
    }
  }

  /** Ticks past the horizon touch nothing. */
  lemma {:induction false} CountStopsAtHorizon(c: Call, entry: Price, ks: seq<Tick>, i: nat, j: nat, level: Touch)
    requires InOrder(ks) && i <= j <= |ks| && (i < |ks| ==> c.horizon < ks[i].t)
    ensures Count(c, entry, ks[..j], level) == Count(c, entry, ks[..i], level)
    decreases j
  {
    hide TouchOf;
    if i < j {
      CountStopsAtHorizon(c, entry, ks, i, j - 1, level);
      assert ks[..j][..j - 1] == ks[..j - 1];
      assert ks[i].t <= ks[j - 1].t;
    }
  }

  /** The two levels cannot be completed by different ticks: at most one tick decides. */
  lemma DecidesOnce(c: Call, entry: Price, ks: seq<Tick>, need: nat, i: nat, x: Touch, j: nat, y: Touch)
    requires i < |ks| && j < |ks| && x in {Tp, Sl} && y in {Tp, Sl}
    requires DecidesAt(c, entry, ks, need, i, x) && DecidesAt(c, entry, ks, need, j, y)
    ensures i == j && x == y
  {
    hide Count, TouchOf;
    if i < j {
      CountGrows(c, entry, ks, i + 1, j, x);
      assert false;
    } else if j < i {
      CountGrows(c, entry, ks, j + 1, i, y);
      assert false;
    }
  }

  // ---------------------------------------------------------------- grading

  /** What is known about the series: whether windows are missing, and until when to wait for them. */
  datatype Feed = Feed(missing: bool, abandonAt: Option<int>)

  /** The entry price: the last tick at or before the commit time. */
  function EntryOf(c: Call, ks: seq<Tick>): Option<Price>
  {
    if ks == [] then None
    else if ks[|ks| - 1].t <= c.t0 then Some(ks[|ks| - 1].p)
    else EntryOf(c, ks[..|ks| - 1])
  }

  /** The last tick of the call's life. */
  function LastIn(c: Call, ks: seq<Tick>): Option<Price>
  {
    if ks == [] then None
    else if InRange(c, ks[|ks| - 1]) then Some(ks[|ks| - 1].p)
    else LastIn(c, ks[..|ks| - 1])
  }

  lemma {:induction false} LastInStopsAtHorizon(c: Call, ks: seq<Tick>, i: nat, j: nat)
    requires InOrder(ks) && i <= j <= |ks| && (i < |ks| ==> c.horizon < ks[i].t)
    ensures LastIn(c, ks[..j]) == LastIn(c, ks[..i])
    decreases j
  {
    if i < j {
      LastInStopsAtHorizon(c, ks, i, j - 1);
      assert ks[..j][..j - 1] == ks[..j - 1];
      assert ks[i].t <= ks[j - 1].t;
    }
  }

  /** The move from entry to the mark, in the call's direction. */
  function MarkBps(c: Call, entry: Price, mark: Option<Price>): Option<real>
  {
    if mark.None? then None else Some((mark.value - entry) / entry * 10000.0 * (if c.isLong then 1.0 else -1.0))
  }

  /**
   The grade of a priced call. WON or LOST exactly when some tick completes that level first, and then at that
   tick's time; without one, washed once the horizon has passed and nothing is missing or worth waiting for.
   */
  method GradePriced(c: Call, entry: Price, ks: seq<Tick>, need: nat, now: int, feed: Feed) returns (g: Grade)
    requires InOrder(ks) && need > 0
    ensures g.status == Won <==> Decided(c, entry, ks, need, Tp)
    ensures g.status == Lost <==> Decided(c, entry, ks, need, Sl)
    ensures g.status in {Won, Lost} ==>
              exists i :: 0 <= i < |ks| && DecidesAt(c, entry, ks, need, i, if g.status == Won then Tp else Sl)
                          && g == if g.status == Won then Grade(Won, TpTouch, Some(ks[i].t), Some(c.tpBps))
                                  else Grade(Lost, SlTouch, Some(ks[i].t), Some(-c.slBps))
    ensures g.status == Washed ==> g == Grade(Washed, HorizonExpired, Some(c.horizon), MarkBps(c, entry, LastIn(c, ks)))
    ensures g.status !in {Won, Lost} ==>
              g.status == (if now < c.horizon || (feed.missing && feed.abandonAt.Some? && now < feed.abandonAt.value) then Pending else Washed)
  {
    hide TouchOf, MarkBps;
    var tp, sl := 0, 0;
    var lastP: Option<Price> := None;
    var i := 0;
    while i < |ks|
      invariant 0 <= i <= |ks|
      invariant lastP == LastIn(c, ks[..i])
      invariant tp == Count(c, entry, ks[..i], Tp) < need && sl == Count(c, entry, ks[..i], Sl) < need
    {
      assert ks[..i + 1][..i] == ks[..i];
      if ks[i].t <= c.t0 {
        i := i + 1;
        continue;
      }
      if ks[i].t > c.horizon {
        break;
      }
      lastP := Some(ks[i].p);
      var r := TouchOf(c, entry, ks[i]);
      if r == Sl {
        sl := sl + 1;
        if sl >= need {
          assert DecidesAt(c, entry, ks, need, i, Sl);
          OnlyOneLevel(c, entry, ks, need, i, Sl);
          return Decisive(c, Lost, ks[i].t);
        }
      } else if r == Tp {
        tp := tp + 1;
        if tp >= need {
          assert DecidesAt(c, entry, ks, need, i, Tp);
          OnlyOneLevel(c, entry, ks, need, i, Tp);
          return Decisive(c, Won, ks[i].t);
        }
      }
      i := i + 1;
    }
    NothingDecides(c, entry, ks, need, i);
    if now >= c.horizon {
      if feed.missing && feed.abandonAt.Some? && now < feed.abandonAt.value {
        return Grade(Pending, NoReason, None, None);
      }
      LastInStopsAtHorizon(c, ks, i, |ks|);
      assert ks[..|ks|] == ks;
      return Grade(Washed, HorizonExpired, Some(c.horizon), MarkBps(c, entry, lastP));
    }
    return Grade(Pending, NoReason, None, None);
  }

  function Decisive(c: Call, status: Status, t: int): Grade
  {
    if status == Won then Grade(Won, TpTouch, Some(t), Some(c.tpBps)) else Grade(status, SlTouch, Some(t), Some(-c.slBps))
  }

  /** Once one level is complete, the other never is. */
  lemma OnlyOneLevel(c: Call, entry: Price, ks: seq<Tick>, need: nat, i: nat, level: Touch)
    requires i < |ks| && level in {Tp, Sl} && DecidesAt(c, entry, ks, need, i, level)
    ensures forall j, other :: 0 <= j < |ks| && other in {Tp, Sl} && DecidesAt(c, entry, ks, need, j, other) ==> j == i && other == level
  {
    hide DecidesAt;
    forall j, other | 0 <= j < |ks| && other in {Tp, Sl} && DecidesAt(c, entry, ks, need, j, other) ensures j == i && other == level {
      DecidesOnce(c, entry, ks, need, i, level, j, other);
    }
  }

  /** Undecided through the horizon means undecided for good. */
  lemma NothingDecides(c: Call, entry: Price, ks: seq<Tick>, need: nat, i: nat)
    requires InOrder(ks) && i <= |ks| && Undecided(c, entry, ks, need, i) && (i < |ks| ==> c.horizon < ks[i].t)
    ensures forall j, level :: 0 <= j < |ks| && level in {Tp, Sl} ==> !DecidesAt(c, entry, ks, need, j, level)
  {
    forall j, level | 0 <= j < |ks| && level in {Tp, Sl} ensures !DecidesAt(c, entry, ks, need, j, level) {
      hide Count, TouchOf;
      if j < i {
        CountGrows(c, entry, ks, j + 1, i, level);
      } else {
        CountStopsAtHorizon(c, entry, ks, i, j + 1, level);
      }
    }
  }

  /** The grade of a fetched call: an entry that never appears is washed at the abandon deadline. */
  method GradeFetched(c: Call, ks: seq<Tick>, need: nat, now: int, missing: bool, abandonAt: int) returns (g: Grade)
    requires InOrder(ks) && need > 0 && c.horizon <= abandonAt
    ensures now >= abandonAt ==> g.status != Pending
    ensures EntryOf(c, ks).None? ==> g.status !in {Won, Lost} && (g.status == Pending <==> now < abandonAt)
    ensures EntryOf(c, ks).Some? ==>
              && (g.status == Won <==> Decided(c, EntryOf(c, ks).value, ks, need, Tp))
              && (g.status == Lost <==> Decided(c, EntryOf(c, ks).value, ks, need, Sl))
  {
    hide Decided;
    var entry := EntryOf(c, ks);
    if entry.None? {
      if now >= abandonAt {
        return Grade(Washed, NoEntryPrice, Some(c.horizon), None);
      }
      return Grade(Pending, NoReason, None, None);
    }
    g := GradePriced(c, entry.value, ks, need, now, Feed(missing, Some(abandonAt)));
  }

  // ---------------------------------------------------------------- later ticks

  /** Ticks that come later never change which tick decided. */
  lemma LaterTicksChangeNothing(c: Call, entry: Price, ks: seq<Tick>, more: seq<Tick>, need: nat, i: nat, level: Touch)
    requires i < |ks| && DecidesAt(c, entry, ks, need, i, level)
    ensures DecidesAt(c, entry, ks + more, need, i, level)
  {
    assert (ks + more)[..i] == ks[..i] && (ks + more)[..i + 1] == ks[..i + 1];
  }

  // ---------------------------------------------------------------- dropped ticks

  /** `idx` picks ticks of `ks` in order: what is left after some are dropped. */
  ghost predicate Dropped(ks: seq<Tick>, some: seq<Tick>, idx: seq<int>)
  {
    && |idx| == |some|
    && (forall i :: 0 <= i < |idx| ==> 0 <= idx[i] < |ks| && some[i] == ks[idx[i]])
    && (forall i, j :: 0 <= i < j < |idx| ==> idx[i] < idx[j])
  }

  lemma {:induction false} FewerTouches(c: Call, entry: Price, ks: seq<Tick>, some: seq<Tick>, idx: seq<int>, n: nat, level: Touch)
    requires Dropped(ks, some, idx) && n <= |some|
    ensures Count(c, entry, some[..n], level) <= Count(c, entry, ks[..(if n == 0 then 0 else idx[n - 1] + 1)], level)
    decreases n
  {
    hide Touches;
    if n > 0 {
      FewerTouches(c, entry, ks, some, idx, n - 1, level);
      assert some[..n][..n - 1] == some[..n - 1];
      var last := idx[n - 1];
      assert ks[..last + 1][..last] == ks[..last];
      CountGrows(c, entry, ks, if n == 1 then 0 else idx[n - 2] + 1, last, level);
    }
  }

  /** A call nobody decided is short of touches on both levels. */
  lemma {:induction false} CompleteMeansDecided(c: Call, entry: Price, ks: seq<Tick>, need: nat, n: nat)
    requires need > 0 && n <= |ks| && !Undecided(c, entry, ks, need, n)
    ensures Decided(c, entry, ks, need, Tp) || Decided(c, entry, ks, need, Sl)
    decreases n
  {
    hide Touches;
    if n > 0 {
      if Undecided(c, entry, ks, need, n - 1) {
        assert ks[..n][..n - 1] == ks[..n - 1];
        assert DecidesAt(c, entry, ks, need, n - 1, Tp) || DecidesAt(c, entry, ks, need, n - 1, Sl);
      } else {
        CompleteMeansDecided(c, entry, ks, need, n - 1);
      }
    }
  }

  /** Dropping ticks never decides an undecided call. */
  lemma DroppingNeverDecides(c: Call, entry: Price, ks: seq<Tick>, some: seq<Tick>, idx: seq<int>, need: nat, level: Touch)
    requires need > 0 && Dropped(ks, some, idx) && level in {Tp, Sl}
    requires !Decided(c, entry, ks, need, Tp) && !Decided(c, entry, ks, need, Sl)
    ensures !Decided(c, entry, some, need, level)
  {
    forall i | 0 <= i < |some| ensures !DecidesAt(c, entry, some, need, i, level) {
      hide Decided, Dropped, Count, Touches;
      FewerTouches(c, entry, ks, some, idx, i + 1, level);
      DroppedIndex(ks, some, idx, i);
      CountGrows(c, entry, ks, idx[i] + 1, |ks|, level);
      if !Undecided(c, entry, ks, need, |ks|) {
        CompleteMeansDecided(c, entry, ks, need, |ks|);
        assert false;
      }
    }
  }

  lemma DroppedIndex(ks: seq<Tick>, some: seq<Tick>, idx: seq<int>, i: nat)
    requires Dropped(ks, some, idx) && i < |some|
    ensures |idx| == |some| && 0 <= idx[i] < |ks|
  {
  }

  // ---------------------------------------------------------------- what a touch is

  /** Dividing a price by the entry. */
  lemma Ratio(p: real, entry: Price, x: real)
    ensures entry * (1.0 + x) <= p <==> x <= (p - entry) / entry
    ensures p <= entry * (1.0 - x) <==> (p - entry) / entry <= -x
  {
    var q := (p - entry) / entry;
    assert q * entry == p - entry;
    assert entry * (1.0 + x) == entry + entry * x && entry * (1.0 - x) == entry - entry * x;
    if x <= q {
      assert entry * x <= entry * q;
    } else {
      assert entry * q < entry * x;
    }
    if q <= -x {
      assert entry * q <= entry * -x;
    } else {
      assert entry * -x < entry * q;
    }
  }

  /** A tick takes the profit exactly when the call's move, in basis points, reaches the profit band, and the stop
      exactly when it falls to the stop band below the entry. */
  lemma TouchIsSignedMove(c: Call, entry: Price, k: Tick)
    requires c.tpBps > 0.0 && c.slBps > 0.0
    ensures TouchOf(c, entry, k) == Tp <==> c.tpBps <= MarkBps(c, entry, Some(k.p)).value
    ensures TouchOf(c, entry, k) == Sl <==> MarkBps(c, entry, Some(k.p)).value <= -c.slBps
  {
    Ratio(k.p, entry, c.tpBps / 10000.0);
    Ratio(k.p, entry, c.slBps / 10000.0);
    var q := (k.p - entry) / entry;
    assert q * 10000.0 * 1.0 == q * 10000.0 && q * 10000.0 * -1.0 == -(q * 10000.0);
  }

  // ---------------------------------------------------------------- what a grade rests on

  /** The signed move in basis points reaches the profit band, or falls to the stop band. */
  predicate Reaches(c: Call, entry: Price, k: Tick, level: Touch)
  {
    var move := (if c.isLong then k.p - entry else entry - k.p) / entry * 10000.0;
    if level == Tp then c.tpBps <= move else move <= -c.slBps
  }

  lemma SignedMove(c: Call, entry: Price, k: Tick)
    ensures (if c.isLong then k.p - entry else entry - k.p) / entry * 10000.0 == MarkBps(c, entry, Some(k.p)).value
  {
    assert (entry - k.p) / entry == -((k.p - entry) / entry);
  }

  /** The ticks before `i`, after the commit time and by the horizon, that reach the level. */
  function TouchesBefore(c: Call, entry: Price, ks: seq<Tick>, i: nat, level: Touch): set<int>
    requires i <= |ks|
  {
    set j | 0 <= j < i && c.t0 < ks[j].t <= c.horizon && Reaches(c, entry, ks[j], level)
  }

  lemma {:induction false} CountIsTouches(c: Call, entry: Price, ks: seq<Tick>, i: nat, level: Touch)
    requires i <= |ks| && level in {Tp, Sl} && c.tpBps > 0.0 && c.slBps > 0.0
    ensures Count(c, entry, ks[..i], level) == |TouchesBefore(c, entry, ks, i, level)|
    decreases i
  {
    hide TouchOf, Reaches;
    if i > 0 {
      assert ks[..i][..i - 1] == ks[..i - 1];
      CountIsTouches(c, entry, ks, i - 1, level);
      TouchReaches(c, entry, ks[i - 1], level);
      var before, after := TouchesBefore(c, entry, ks, i - 1, level), TouchesBefore(c, entry, ks, i, level);
      assert after == if Touches(c, entry, ks[i - 1], level) then before + {i - 1} else before;
    }
  }

  lemma TouchReaches(c: Call, entry: Price, k: Tick, level: Touch)
    requires level in {Tp, Sl} && c.tpBps > 0.0 && c.slBps > 0.0
    ensures TouchOf(c, entry, k) == level <==> Reaches(c, entry, k, level)
  {
    TouchIsSignedMove(c, entry, k);
    SignedMove(c, entry, k);
    hide TouchOf;
  }

  /**
   A level decides a call at a tick exactly when that tick lies in the call's life and reaches the level, it is the
   `need`-th that does, and the other level had fewer before it.
   */
  lemma DecidedByTouches(c: Call, entry: Price, ks: seq<Tick>, need: nat, i: nat, level: Touch)
    requires i < |ks| && need > 0 && level in {Tp, Sl} && c.tpBps > 0.0 && c.slBps > 0.0
    ensures DecidesAt(c, entry, ks, need, i, level) <==>
              && c.t0 < ks[i].t <= c.horizon && Reaches(c, entry, ks[i], level)
              && |TouchesBefore(c, entry, ks, i, level)| == need - 1
              && |TouchesBefore(c, entry, ks, i, Other(level))| < need
  {
    hide TouchOf, Reaches, TouchesBefore;
    CountIsTouches(c, entry, ks, i, Tp);
    CountIsTouches(c, entry, ks, i, Sl);
    TouchReaches(c, entry, ks[i], level);
    assert ks[..i + 1][..i] == ks[..i];
  }

  /** The entry is the price of the last tick at or before the commit time. */
  lemma {:induction false} EntryIsLastBefore(c: Call, ks: seq<Tick>)
    ensures if exists i :: 0 <= i < |ks| && ks[i].t <= c.t0
            then exists i :: 0 <= i < |ks| && ks[i].t <= c.t0 && EntryOf(c, ks) == Some(ks[i].p) && forall j :: i < j < |ks| ==> c.t0 < ks[j].t
            else EntryOf(c, ks).None?
    decreases |ks|
  {
    if ks != [] && c.t0 < ks[|ks| - 1].t {
      EntryIsLastBefore(c, ks[..|ks| - 1]);
    }
  }

  predicate InLife(c: Call, k: Tick)
  {
    c.t0 < k.t <= c.horizon
  }

  /** The mark of an undecided call is the price of the last tick after the commit time and by the horizon. */
  lemma {:induction false} MarkIsLastInLife(c: Call, ks: seq<Tick>)
    ensures if exists i :: 0 <= i < |ks| && InLife(c, ks[i])
            then exists i :: 0 <= i < |ks| && InLife(c, ks[i]) && LastIn(c, ks) == Some(ks[i].p)
                             && forall j :: i < j < |ks| ==> !InLife(c, ks[j])
            else LastIn(c, ks).None?
    decreases |ks|
  {
    if ks != [] && !InLife(c, ks[|ks| - 1]) {
      MarkIsLastInLife(c, ks[..|ks| - 1]);
    }
  }

  // ---------------------------------------------------------------- the opposite call

  function Flip(c: Call): Call
  {
    c.(isLong := !c.isLong)
  }

  function Other(level: Touch): Touch
  {
    match level
    case Tp => Sl
    case Sl => Tp
    case Neither => Neither
  }

  /** With equal bands, a price that takes one side's profit is the other side's stop. */
  lemma FlipTouches(c: Call, entry: Price, k: Tick)
    requires c.tpBps == c.slBps > 0.0
    ensures TouchOf(Flip(c), entry, k) == Other(TouchOf(c, entry, k))
  {
    assert entry * (1.0 - c.tpBps / 10000.0) < entry < entry * (1.0 + c.tpBps / 10000.0) by {
      Band(entry, c.tpBps / 10000.0);
    }
  }

  lemma Band(entry: Price, x: real)
    requires x > 0.0
    ensures entry * (1.0 - x) < entry < entry * (1.0 + x)
  {
    assert entry * x > 0.0;
    assert entry * (1.0 - x) == entry - entry * x;
    assert entry * (1.0 + x) == entry + entry * x;
  }

  lemma {:induction false} FlipCounts(c: Call, entry: Price, ks: seq<Tick>, level: Touch)
    requires c.tpBps == c.slBps > 0.0
    ensures Count(Flip(c), entry, ks, Other(level)) == Count(c, entry, ks, level)
    decreases |ks|
  {
    if ks != [] {
      FlipCounts(c, entry, ks[..|ks| - 1], level);
      FlipTouches(c, entry, ks[|ks| - 1]);
      hide TouchOf;
    }
  }

  /** With equal bands, the opposite call is lost exactly when and where this one is won. */
  lemma FlipSwaps(c: Call, entry: Price, ks: seq<Tick>, need: nat, i: nat, level: Touch)
    requires c.tpBps == c.slBps > 0.0 && i < |ks| && level in {Tp, Sl}
    ensures DecidesAt(Flip(c), entry, ks, need, i, Other(level)) <==> DecidesAt(c, entry, ks, need, i, level)
  {
    FlipCounts(c, entry, ks[..i], Tp);
    FlipCounts(c, entry, ks[..i], Sl);
    FlipCounts(c, entry, ks[..i + 1], level);
    FlipTouches(c, entry, ks[i]);
    hide TouchOf, Count;
  }
}
