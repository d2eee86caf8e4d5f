/**
 Sealed tick shards, one per 180-second window, and the stream they hold: each window's rows in
 (time, pair) order, window after window.
 */
module TickShards {
  import opened Wrappers
  import opened AgentBooks
  import opened Sorting
  import opened TickSimulation


  /** A line of a shard: a row, or something that does not parse. */
  datatype Line = Junk | Row(tick: Tick)

  /** The lines of a window's shard, or nothing when it is missing. */
  type Reader = int -> Option<seq<Line>>

  predicate TickLeq(x: Tick, y: Tick)
  {
    x.t < y.t || (x.t == y.t && x.a <= y.a)
  }

  lemma TickOrder()
    ensures TotalPreorder(TickLeq)
  {
  }

  function Rows(lines: seq<Line>): seq<Tick>
  {
    if lines == [] then []
    else
      var front := Rows(lines[..|lines| - 1]);
      var l := lines[|lines| - 1];
      if l.Row? then front + [l.tick] else front
  }

  /** Every row of a shard lies in the shard's window. */
  ghost predicate WellSharded(read: Reader)
  {
    forall w :: read(w).Some? ==> forall l :: l in read(w).value && l.Row? ==> w <= l.tick.t < w + WINDOW_MS
  }

  function WindowTicks(read: Reader, w: int): seq<Tick>
  {
    if read(w).None? then [] else Sort(TickLeq, Rows(read(w).value))
  }

  /** The windows w, w + 180 s, ... before `stop`. */
  function FullStream(read: Reader, w: int, stop: int): seq<Tick>
    decreases stop - w
  {
    if w >= stop then [] else WindowTicks(read, w) + FullStream(read, w + WINDOW_MS, stop)
  }

  lemma {:induction false} RowsAreListed(lines: seq<Line>, x: Tick)
    ensures x in Rows(lines) <==> Row(x) in lines
    decreases |lines|
  {
    if lines != [] {
      RowsAreListed(lines[..|lines| - 1], x);
      assert lines == lines[..|lines| - 1] + [lines[|lines| - 1]];
    }
  }

  /** The tick is a row of the `n`-th window from `w` on, which starts before `stop`. */
  predicate RowAt(read: Reader, w: int, stop: int, x: Tick, n: nat)
  {
    w + 180_000 * n < stop && read(w + 180_000 * n).Some? && Row(x) in read(w + 180_000 * n).value
  }

  lemma RowLater(read: Reader, w: int, stop: int, x: Tick, n: nat)
    ensures RowAt(read, w + WINDOW_MS, stop, x, n) <==> RowAt(read, w, stop, x, n + 1)
  {
    assert w + WINDOW_MS + 180_000 * n == w + 180_000 * (n + 1);
  }

  /** The full stream has the rows of the windows 180 seconds apart from `w` on and before `stop`, and no others. */
  lemma {:induction false} StreamHasEveryRow(read: Reader, w: int, stop: int, x: Tick)
    ensures x in FullStream(read, w, stop) <==> exists n: nat :: RowAt(read, w, stop, x, n)
    decreases stop - w
  {
    hide Sort;
    if w < stop {
      StreamHasEveryRow(read, w + WINDOW_MS, stop, x);
      if read(w).Some? {
        RowsAreListed(read(w).value, x);
        SortElements(TickLeq, Rows(read(w).value));
      }
      FirstRow(read, w, stop, x);
      hide RowAt;
      var v := w + WINDOW_MS;
      if n: nat :| RowAt(read, v, stop, x, n) {
        RowLater(read, w, stop, x, n);
      }
      if n: nat :| RowAt(read, w, stop, x, n) && n > 0 {
        RowLater(read, w, stop, x, n - 1);
      }
    }
  }

  lemma FirstRow(read: Reader, w: int, stop: int, x: Tick)
    requires w < stop
    ensures RowAt(read, w, stop, x, 0) <==> read(w).Some? && Row(x) in read(w).value
  {
  }

  /** Where the last window that starts before `stop` ends. */
  function ReadEnd(w: int, stop: int): int
    decreases stop - w
  {
    if w >= stop then w else ReadEnd(w + WINDOW_MS, stop)
  }

  lemma {:induction false} RowsAreLines(lines: seq<Line>)
    ensures forall t :: t in Rows(lines) <==> Row(t) in lines
    decreases |lines|
  {
    if lines != [] {
      RowsAreLines(lines[..|lines| - 1]);
      assert lines == lines[..|lines| - 1] + [lines[|lines| - 1]];
    }
  }

  lemma WindowBounds(read: Reader, w: int)
    requires WellSharded(read)
    ensures forall k :: 0 <= k < |WindowTicks(read, w)| ==> w <= WindowTicks(read, w)[k].t < w + WINDOW_MS
    ensures Ordered(TickLeq, WindowTicks(read, w))
  {
    if read(w).Some? {
      var lines := read(w).value;
      var ticks := WindowTicks(read, w);
      TickOrder();
      SortOrdered(TickLeq, Rows(lines));
      SortElements(TickLeq, Rows(lines));
      RowsAreLines(lines);
      forall k | 0 <= k < |ticks| ensures w <= ticks[k].t < w + WINDOW_MS {
        assert ticks[k] in ticks;
        assert Row(ticks[k]) in lines;
      }
    }
  }

  /** The stream is in (time, pair) order and lies between its first window and the end of its last. */
  lemma {:induction false} FullStreamOrdered(read: Reader, w: int, stop: int)
    requires WellSharded(read)
    ensures Ordered(TickLeq, FullStream(read, w, stop))
    ensures forall k :: 0 <= k < |FullStream(read, w, stop)| ==> w <= FullStream(read, w, stop)[k].t < ReadEnd(w, stop)
    decreases stop - w
  {
    if w < stop {
      WindowBounds(read, w);
      FullStreamOrdered(read, w + WINDOW_MS, stop);
      ReadEndBeyond(w + WINDOW_MS, stop);
    }
  }

  lemma {:induction false} ReadEndBeyond(w: int, stop: int)
    ensures w <= ReadEnd(w, stop)
    decreases stop - w
  {
    if w < stop {
      ReadEndBeyond(w + WINDOW_MS, stop);
    }
  }

  /** Reading stops at the first multiple of the window at or after `stop`. */
  lemma {:induction false} ReadEndOnGrid(w: int, stop: int)
    requires w % WINDOW_MS == 0 && w <= stop
    ensures ReadEnd(w, stop) % WINDOW_MS == 0
    ensures stop <= ReadEnd(w, stop) < stop + WINDOW_MS
    decreases stop - w
  {
    if w < stop {
      if w + WINDOW_MS <= stop {
        ReadEndOnGrid(w + WINDOW_MS, stop);
      }
    }
  }

  lemma {:induction false} FullStreamSplits(read: Reader, w: int, mid: int, stop: int)
    requires w <= mid <= stop && (mid - w) % WINDOW_MS == 0
    ensures FullStream(read, w, stop) == FullStream(read, w, mid) + FullStream(read, mid, stop)
    decreases mid - w
  {
    if w < mid {
      FullStreamSplits(read, w + WINDOW_MS, mid, stop);
    }
  }

  // ---------------------------------------------------------------- sub-streams

  lemma {:induction false} SubTail(a: seq<Tick>, b: seq<Tick>, keep: set<int>, keepB: set<int>, i: nat)
    requires i <= |b|
    requires forall k :: 0 <= k < |b| ==> (k in keepB <==> k + |a| in keep)
    ensures Sub(a + b, keep, |a| + i) == Sub(b, keepB, i)
    decreases |b| - i
  {
    if i < |b| {
      assert (a + b)[|a| + i] == b[i];
      SubTail(a, b, keep, keepB, i + 1);
    }
  }

  lemma {:induction false} SubHead(a: seq<Tick>, b: seq<Tick>, keep: set<int>, keepA: set<int>, keepB: set<int>, i: nat)
    requires i <= |a|
    requires forall k :: 0 <= k < |a| ==> (k in keepA <==> k in keep)
    requires forall k :: 0 <= k < |b| ==> (k in keepB <==> k + |a| in keep)
    ensures Sub(a + b, keep, i) == Sub(a, keepA, i) + Sub(b, keepB, 0)
    decreases |a| - i
  {
    if i == |a| {
      SubTail(a, b, keep, keepB, 0);
    } else {
      assert (a + b)[i] == a[i];
      SubHead(a, b, keep, keepA, keepB, i + 1);
    }
  }

  lemma {:induction false} SubIsFilter(tk: seq<Tick>, keep: set<int>, p: Tick -> bool)
    requires forall i :: 0 <= i < |tk| ==> (i in keep <==> p(tk[i]))
    ensures Sub(tk, keep, 0) == Filter(p, tk)
    decreases |tk|
  {
    if tk != [] {
      var front, last := tk[..|tk| - 1], tk[|tk| - 1];
      SubIsFilter(front, keep, p);
      var keepLast := if p(last) then {0} else {};
      assert tk == front + [last];
      SubHead(front, [last], keep, keep, keepLast, 0);
      assert Sub([last], keepLast, 1) == [];
    }
  }

  function Picked(tk: seq<Tick>, o: seq<nat>): seq<Tick>
    requires forall k :: 0 <= k < |o| ==> o[k] < |tk|
  {
    if o == [] then [] else [tk[o[0]]] + Picked(tk, o[1..])
  }

  lemma PickedStep(tk: seq<Tick>, o: seq<nat>, n: nat)
    requires n < |o| && forall k :: 0 <= k < |o| ==> o[k] < |tk|
    ensures Picked(tk, o[n..]) == [tk[o[n]]] + Picked(tk, o[n + 1..])
  {
    assert o[n..][0] == o[n] && o[n..][1..] == o[n + 1..];
  }

  lemma PickedNone(tk: seq<Tick>, o: seq<nat>)
    requires forall k :: 0 <= k < |o| ==> o[k] < |tk|
    ensures Picked(tk, o[|o|..]) == []
  {
  }

  lemma InOrderWithin(keep: set<nat>, n: nat)
    requires forall k :: k in keep ==> k < n
    ensures forall k :: 0 <= k < |InOrder(keep)| ==> InOrder(keep)[k] < n
  {
    var o := InOrder(keep);
    forall k | 0 <= k < |o| ensures o[k] < n {
      assert o[k] in o;
    }
  }

  /** Picking the kept indices in order is the sub-stream. */
  lemma {:induction false} PickInOrder(tk: seq<Tick>, keep: set<nat>, i: nat)
    requires forall k :: k in keep ==> i <= k < |tk|
    requires forall k :: 0 <= k < |InOrder(keep)| ==> InOrder(keep)[k] < |tk|
    ensures Picked(tk, InOrder(keep)) == Sub(tk, keep, i)
    decreases |tk| - i
  {
    hide InOrder;
    if i >= |tk| {
      assert keep == {};
      InOrderOfNone();
    } else if i in keep {
      var rest := keep - {i};
      InOrderStep(keep, i);
      InOrderWithin(rest, |tk|);
      assert InOrder(keep)[0] == i && InOrder(keep)[1..] == InOrder(rest);
      PickInOrder(tk, rest, i + 1);
      SubIgnores(tk, keep, rest, i + 1);
    } else {
      PickInOrder(tk, keep, i + 1);
    }
  }

  lemma InOrderOfNone()
    ensures InOrder({}) == []
  {
  }

  lemma InOrderStep(keep: set<nat>, i: nat)
    requires i in keep && forall k :: k in keep ==> i <= k
    ensures InOrder(keep) == [i] + InOrder(keep - {i})
  {
    assert Least(keep) == i;
  }

  lemma {:induction false} SubIgnores(tk: seq<Tick>, keep: set<int>, keep': set<int>, i: nat)
    requires forall k :: i <= k ==> (k in keep <==> k in keep')
    ensures Sub(tk, keep, i) == Sub(tk, keep', i)
    decreases |tk| - i
  {
    if i < |tk| {
      SubIgnores(tk, keep, keep', i + 1);
    }
  }
}
