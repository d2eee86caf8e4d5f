/**
 The HF ingest across crashes (neurons/hf_ingest.py:597-598, 672-843): accepted calls wait in memory until their
 window closes and is sealed into a log; a live tail on disk lets a restarted process pick up the unsealed windows.
 Appends to the tail and the writing of a sealed log are taken as atomic.
 */
module HfIngest {
  import opened Wrappers
  import opened Sorting


  /** An accepted call: the signer, its sequence number, the receipt time in microseconds, and the rest. */
  datatype Entry = Entry(hk: nat, seqNo: int, tUs: int, payload: nat)

  function WindowAt(tUs: int): int
  {
    tUs / 1000 / WINDOW_MS * WINDOW_MS
  }

  /** The order of the leaves of a sealed log: receipt time, hotkey, sequence number. */
  predicate LeafLeq(x: Entry, y: Entry)
  {
    x.tUs < y.tUs || (x.tUs == y.tUs && (x.hk < y.hk || (x.hk == y.hk && x.seqNo <= y.seqNo)))
  }

  type Buffers = map<int, seq<Entry>>

  /** What a process holds in memory, and the tail and logs it keeps on disk. */
  datatype State = State(lastSeq: map<nat, int>, windows: Buffers, live: Buffers, logs: Buffers)

  const Init := State(map[], map[], map[], map[])

  /** A call that passed every other check, one pass of the anchor loop, or a crash and restart. */
  datatype Event = Submit(e: Entry) | Anchor(tUs: int) | Restart

  function Get(b: Buffers, w: int): seq<Entry>
  {
    if w in b then b[w] else []
  }

  function Last(lastSeq: map<nat, int>, hk: nat): int
  {
    if hk in lastSeq then lastSeq[hk] else -1
  }

  /** One row per hotkey and sequence number: the first. */
  function Dedup(rows: seq<Entry>): seq<Entry>
  {
    if rows == [] then []
    else
      var front, e := Dedup(rows[..|rows| - 1]), rows[|rows| - 1];
      if CallOf(e) in CallsIn(front) then front else front + [e]
  }

  /** A call's identity. */
  function CallOf(e: Entry): (nat, int)
  {
    (e.hk, e.seqNo)
  }

  function CallsIn(rows: seq<Entry>): set<(nat, int)>
  {
    set e | e in rows :: CallOf(e)
  }

  predicate Accepts(st: State, ev: Event)
  {
    ev.Submit? && Last(st.lastSeq, ev.e.hk) < ev.e.seqNo
  }

  function Step(st: State, ev: Event): State
  {
    match ev
    case Submit(e) =>
      if !Accepts(st, ev) then st
      else
        var w := WindowAt(e.tUs);
        st.(lastSeq := st.lastSeq[e.hk := e.seqNo], windows := st.windows[w := Get(st.windows, w) + [e]],
            live := st.live[w := Get(st.live, w) + [e]])
    case Anchor(t) =>
      var due := map w | w in st.windows && w < WindowAt(t) :: Sort(LeafLeq, st.windows[w]);
      st.(logs := st.logs + due, windows := st.windows - due.Keys)
    case Restart =>
      st.(lastSeq := map[],
          windows := map w | w in st.live && w !in st.logs && Dedup(st.live[w]) != [] :: Dedup(st.live[w]))
  }

  function Run(events: seq<Event>): State
  {
    if events == [] then Init else Step(Run(events[..|events| - 1]), events[|events| - 1])
  }

  /** The calls accepted over a run, in order. */
  function Accepted(events: seq<Event>): seq<Entry>
  {
    if events == [] then []
    else
      var front, ev := events[..|events| - 1], events[|events| - 1];
      Accepted(front) + (if Accepts(Run(front), ev) then [ev.e] else [])
  }

  function OfWindow(w: int): Entry -> bool
  {
    (e: Entry) => WindowAt(e.tUs) == w
  }

  // ---------------------------------------------------------------- assumptions

  function TimeOf(ev: Event): int
  {
    match ev
    case Submit(e) => e.tUs
    case Anchor(t) => t
    case Restart => 0
  }

  /** The clock does not go back. */
  ghost predicate Monotone(events: seq<Event>)
  {
    forall i, j :: 0 <= i < j < |events| && !events[i].Restart? && !events[j].Restart? ==> TimeOf(events[i]) <= TimeOf(events[j])
  }

  /** No two of the calls have the same hotkey and sequence number. */
  ghost predicate NoReuse(acc: seq<Entry>)
  {
    forall i, j :: 0 <= i < j < |acc| ==> acc[i].hk != acc[j].hk || acc[i].seqNo != acc[j].seqNo
  }

  // ---------------------------------------------------------------- what every run keeps

  /** No event so far is later than `t`. */
  ghost predicate By(events: seq<Event>, t: int)
  {
    forall i :: 0 <= i < |events| && !events[i].Restart? ==> TimeOf(events[i]) <= t
  }

  /** The tail of a window holds exactly its accepted calls, and a sealed window is out of memory. */
  ghost predicate Tailed(st: State, acc: seq<Entry>)
  {
    && (forall w :: Get(st.live, w) == Filter(OfWindow(w), acc))
    && (forall w :: w in st.logs ==> w !in st.windows)
  }

  /** Sealed windows ended before `t`. */
  ghost predicate SealedBefore(st: State, t: int)
  {
    forall w :: w in st.logs ==> w < WindowAt(t)
  }

  lemma WindowsGrow(t: int, u: int)
    requires t <= u
    ensures WindowAt(t) <= WindowAt(u)
  {
    assert t / 1000 <= u / 1000;
    assert t / 1000 / WINDOW_MS <= u / 1000 / WINDOW_MS;
  }

  lemma FilterAppend(keep: Entry -> bool, acc: seq<Entry>, e: Entry)
    ensures Filter(keep, acc + [e]) == Filter(keep, acc) + (if keep(e) then [e] else [])
  {
    assert (acc + [e])[..|acc|] == acc;
  }

  lemma SubmitKeeps(st: State, acc: seq<Entry>, e: Entry)
    requires Tailed(st, acc) && Accepts(st, Submit(e)) && SealedBefore(st, e.tUs)
    ensures Tailed(Step(st, Submit(e)), acc + [e])
  {
    hide WindowAt, Sort, Filter, Accepts;
    var n, w0 := Step(st, Submit(e)), WindowAt(e.tUs);
    assert w0 !in st.logs;
    forall w ensures Get(n.live, w) == Filter(OfWindow(w), acc + [e]) {
      FilterAppend(OfWindow(w), acc, e);
      assert Get(n.live, w) == Get(st.live, w) + (if w == w0 then [e] else []);
    }
  }

  lemma AnchorKeeps(st: State, acc: seq<Entry>, t: int)
    requires Tailed(st, acc)
    ensures Tailed(Step(st, Anchor(t)), acc)
    ensures SealedBefore(st, t) ==> SealedBefore(Step(st, Anchor(t)), t)
    ensures forall w :: w in st.logs ==> w in Step(st, Anchor(t)).logs && Step(st, Anchor(t)).logs[w] == st.logs[w]
  {
    hide WindowAt, Filter, Sort;
  }

  lemma TailedStep(st: State, acc: seq<Entry>, ev: Event, t: int)
    requires Tailed(st, acc) && SealedBefore(st, t) && (ev.Restart? || t == TimeOf(ev))
    ensures Tailed(Step(st, ev), if Accepts(st, ev) then acc + [ev.e] else acc) && SealedBefore(Step(st, ev), t)
    ensures forall w :: w in st.logs ==> w in Step(st, ev).logs && Step(st, ev).logs[w] == st.logs[w]
  {
    hide WindowAt, Tailed, Dedup;
    match ev
    case Submit(e) =>
      if Accepts(st, ev) {
        SubmitKeeps(st, acc, e);
      }
    case Anchor(u) => AnchorKeeps(st, acc, u);
    case Restart => RestartKeeps(st, acc);
  }

  lemma RestartKeeps(st: State, acc: seq<Entry>)
    requires Tailed(st, acc)
    ensures Tailed(Step(st, Restart), acc)
  {
    hide WindowAt, Sort, Filter, Dedup;
  }

  /** The tail holds what was accepted and no sealed window is in memory, over any run. */
  lemma {:induction false} RunIsConsistent(events: seq<Event>, t: int)
    requires Monotone(events) && By(events, t)
    ensures Tailed(Run(events), Accepted(events)) && SealedBefore(Run(events), t)
    decreases |events|
  {
    hide WindowAt, Tailed, Accepts, Step;
    if events == [] {
      NothingYet();
    } else {
      var front, ev := events[..|events| - 1], events[|events| - 1];
      LastIsLatest(events, t);
      var u := if ev.Restart? then t else TimeOf(ev);
      RunIsConsistent(front, u);
      TailedStep(Run(front), Accepted(front), ev, u);
      assert Accepted(front) + [] == Accepted(front);
      LaterSealed(Run(events), u, t);
    }
  }

  lemma NothingYet()
    ensures Tailed(Init, [])
  {
  }

  /** The events before the last are no later than the last. */
  lemma LastIsLatest(events: seq<Event>, t: int)
    requires events != [] && Monotone(events) && By(events, t)
    ensures var front, ev := events[..|events| - 1], events[|events| - 1];
            Monotone(front) && By(front, if ev.Restart? then t else TimeOf(ev)) && (ev.Restart? || TimeOf(ev) <= t)
  {
  }

  lemma LaterSealed(st: State, t: int, u: int)
    requires SealedBefore(st, t) && t <= u
    ensures SealedBefore(st, u)
  {
    WindowsGrow(t, u);
    hide WindowAt;
  }

  // ---------------------------------------------------------------- what a restart keeps of a tail

  lemma {:induction false} DedupOfDistinct(rows: seq<Entry>)
    requires NoReuse(rows)
    ensures Dedup(rows) == rows
    decreases |rows|
  {
    if rows != [] {
      var front, e := rows[..|rows| - 1], rows[|rows| - 1];
      DedupOfDistinct(front);
      forall x | x in front ensures CallOf(x) != CallOf(e) {
        var i :| 0 <= i < |front| && front[i] == x;
        assert rows[i] == x;
      }
    }
  }

  /** A tail in which a number comes back is read short, and what is read has each call of the tail. */
  lemma {:induction false} DedupOfReuse(rows: seq<Entry>)
    ensures |Dedup(rows)| <= |rows| && CallsIn(Dedup(rows)) == CallsIn(rows)
    ensures !NoReuse(rows) ==> |Dedup(rows)| < |rows|
    decreases |rows|
  {
    hide NoReuse, CallsIn, CallOf;
    if rows == [] {
      NoCalls();
    } else {
      var front, e := rows[..|rows| - 1], rows[|rows| - 1];
      DedupOfReuse(front);
      SeenOneMore(front, e);
      SeenOneMore(Dedup(front), e);
      assert front + [e] == rows;
      if NoReuse(front) && CallOf(e) !in CallsIn(front) {
        NewCallNoReuse(front, e);
      }
    }
  }

  lemma NoCalls()
    ensures NoReuse([])
  {
  }

  lemma NewCallNoReuse(front: seq<Entry>, e: Entry)
    requires NoReuse(front) && CallOf(e) !in CallsIn(front)
    ensures NoReuse(front + [e])
  {
    assert forall i :: 0 <= i < |front| ==> CallOf(front[i]) in CallsIn(front);
  }

  /** What is in memory or sealed of a window. */
  function Held(st: State, w: int): seq<Entry>
  {
    if w in st.logs then st.logs[w] else Get(st.windows, w)
  }

  /** All of the window's tail is in memory, or in its log in leaf order. */
  ghost predicate Intact(st: State, w: int)
  {
    Held(st, w) == if w in st.logs then Sort(LeafLeq, Get(st.live, w)) else Get(st.live, w)
  }

  /** Part of the window's tail is neither in memory nor in its log, and the tail has a number twice. */
  ghost predicate Cut(st: State, w: int)
  {
    |Held(st, w)| < |Get(st.live, w)| && !NoReuse(Get(st.live, w))
  }

  /** At each restart at which the window has no log, the tail then has no number twice. */
  ghost predicate RestartsClean(events: seq<Event>, w: int)
  {
    forall i :: 0 <= i < |events| && events[i].Restart? ==> CleanAt(Run(events[..i]), w)
  }

  ghost predicate CleanAt(st: State, w: int)
  {
    w in st.logs || NoReuse(Get(st.live, w))
  }

  lemma CleanOneMore(events: seq<Event>, w: int)
    requires events != []
    ensures var front, ev := events[..|events| - 1], events[|events| - 1];
            RestartsClean(events, w) <==> RestartsClean(front, w) && (ev.Restart? ==> CleanAt(Run(front), w))
  {
    hide CleanAt, Run;
    var front := events[..|events| - 1];
    assert forall i :: 0 <= i < |front| ==> front[i] == events[i] && front[..i] == events[..i];
  }

  /** Memory and tail grow together; a pass of the anchor loop moves a window as it is in memory to its log. */
  lemma StepKeepsHeld(st: State, acc: seq<Entry>, ev: Event, w: int, t: int)
    requires Tailed(st, acc) && SealedBefore(st, t) && !ev.Restart? && t == TimeOf(ev)
    ensures Intact(st, w) ==> Intact(Step(st, ev), w)
    ensures Cut(st, w) ==> Cut(Step(st, ev), w)
  {
    hide WindowAt, Filter, Sort;
    var n := Step(st, ev);
    if ev.Submit? {
      if Accepts(st, ev) && WindowAt(ev.e.tUs) == w {
        assert w !in st.logs;
        assert Get(n.live, w) == Get(st.live, w) + [ev.e] && Get(n.windows, w) == Get(st.windows, w) + [ev.e];
        assert forall i :: 0 <= i < |Get(st.live, w)| ==> Get(n.live, w)[i] == Get(st.live, w)[i];
      }
    } else if w in n.logs && w !in st.logs {
      SortElements(LeafLeq, Get(st.windows, w));
      assert |multiset(Sort(LeafLeq, Get(st.windows, w)))| == |multiset(Get(st.windows, w))|;
    }
  }

  lemma RestartHeld(st: State, acc: seq<Entry>, w: int)
    requires Tailed(st, acc)
    ensures w !in st.logs ==> Held(Step(st, Restart), w) == Dedup(Get(st.live, w))
    ensures w in st.logs ==> Held(Step(st, Restart), w) == Held(st, w)
  {
    hide WindowAt, Filter, Sort;
    assert Dedup([]) == [];
    hide Dedup;
  }

  /** A window is intact as long as the restarts found it clean, and is cut for good by the first that does not. */
  lemma {:induction false} IntactIffClean(events: seq<Event>, t: int, w: int)
    requires Monotone(events) && By(events, t)
    ensures if RestartsClean(events, w) then Intact(Run(events), w) else Cut(Run(events), w)
    decreases |events|
  {
    hide WindowAt, Tailed, Accepts, Step, NoReuse, RestartsClean;
    if events == [] {
      StartIsIntact(w);
    } else {
      var front, ev := events[..|events| - 1], events[|events| - 1];
      LastIsLatest(events, t);
      CleanOneMore(events, w);
      var u := if ev.Restart? then t else TimeOf(ev);
      RunIsConsistent(front, u);
      IntactIffClean(front, u, w);
      if ev.Restart? {
        RestartCuts(Run(front), Accepted(front), w);
      } else {
        StepKeepsHeld(Run(front), Accepted(front), ev, w, u);
      }
    }
  }

  lemma StartIsIntact(w: int)
    ensures Intact(Init, w) && RestartsClean([], w)
  {
    hide WindowAt, NoReuse;
  }

  lemma RestartCuts(st: State, acc: seq<Entry>, w: int)
    requires Tailed(st, acc) && (Intact(st, w) || Cut(st, w))
    ensures Intact(st, w) && CleanAt(st, w) ==> Intact(Step(st, Restart), w)
    ensures Cut(st, w) || !CleanAt(st, w) ==> Cut(Step(st, Restart), w)
  {
    hide WindowAt, Filter, Sort, Dedup, NoReuse, Tailed;
    var n := Step(st, Restart);
    assert n.logs == st.logs && n.live == st.live;
    RestartHeld(st, acc, w);
    var tail := Get(st.live, w);
    DedupOfReuse(tail);
    if NoReuse(tail) {
      DedupOfDistinct(tail);
    }
  }

  // ---------------------------------------------------------------- main results

  /** Once sealed, a log is never rewritten, by any step of any run. */
  lemma SealedLogsStay(events: seq<Event>, ev: Event, t: int)
    requires Monotone(events) && By(events, t)
    ensures forall w :: w in Run(events).logs ==> w in Run(events + [ev]).logs && Run(events + [ev]).logs[w] == Run(events).logs[w]
  {
    RunIsConsistent(events, t);
    assert (events + [ev])[..|events|] == events;
    if ev.Anchor? {
      AnchorKeeps(Run(events), Accepted(events), ev.tUs);
    }
  }

  /**
   A sealed log holds the calls accepted in its window, in leaf order, whatever crashed in between, exactly when no
   restart before the seal found a number twice in the window's tail.
   */
  lemma LogsHoldTheirWindow(events: seq<Event>, t: int, w: int)
    requires Monotone(events) && By(events, t) && w in Run(events).logs
    ensures RestartsClean(events, w) <==> Run(events).logs[w] == Sort(LeafLeq, Filter(OfWindow(w), Accepted(events)))
  {
    hide WindowAt, Sort, Filter, RestartsClean, NoReuse;
    RunIsConsistent(events, t);
    IntactIffClean(events, t, w);
    var tail := Get(Run(events).live, w);
    SortElements(LeafLeq, tail);
    assert |multiset(Sort(LeafLeq, tail))| == |multiset(tail)|;
  }

  /** A log holds nothing but calls accepted in its own window. */
  lemma LogsHoldNoOther(events: seq<Event>, t: int, w: int, e: Entry)
    requires Monotone(events) && By(events, t) && e in Get(Run(events).logs, w)
    ensures WindowAt(e.tUs) == w && e in Accepted(events)
  {
    hide WindowAt, Run, Accepted;
    HeldIsAccepted(events, t);
    FilterElements(OfWindow(w), Accepted(events));
    assert e in Held(Run(events), w);
    assert e in Filter(OfWindow(w), Accepted(events));
  }

  /** What memory and logs hold of a window comes from its tail. */
  ghost predicate FromTail(st: State)
  {
    forall w, e :: e in Held(st, w) ==> e in Get(st.live, w)
  }

  lemma {:induction false} DedupElements(rows: seq<Entry>)
    ensures forall e :: e in Dedup(rows) ==> e in rows
    decreases |rows|
  {
    if rows != [] {
      DedupElements(rows[..|rows| - 1]);
    }
  }

  lemma StepFromTail(st: State, acc: seq<Entry>, ev: Event)
    requires Tailed(st, acc) && FromTail(st)
    ensures FromTail(Step(st, ev))
  {
    hide WindowAt, Filter, Sort, Dedup;
    var n := Step(st, ev);
    forall w, e | e in Held(n, w) ensures e in Get(n.live, w) {
      if ev.Restart? {
        RestartHeld(st, acc, w);
        DedupElements(Get(st.live, w));
      } else if w in n.logs && w !in st.logs {
        SortElements(LeafLeq, st.windows[w]);
        assert e in multiset(st.windows[w]);
        assert e in Held(st, w);
      } else if e !in Held(st, w) {
        assert ev.Submit? && e == ev.e;
      }
    }
  }

  lemma {:induction false} HeldIsAccepted(events: seq<Event>, t: int)
    requires Monotone(events) && By(events, t)
    ensures FromTail(Run(events)) && Tailed(Run(events), Accepted(events))
    decreases |events|
  {
    hide WindowAt, Tailed, Step, FromTail;
    RunIsConsistent(events, t);
    if events == [] {
      InitFromTail();
    } else {
      var front, ev := events[..|events| - 1], events[|events| - 1];
      LastIsLatest(events, t);
      HeldIsAccepted(front, if ev.Restart? then t else TimeOf(ev));
      StepFromTail(Run(front), Accepted(front), ev);
    }
  }

  lemma InitFromTail()
    ensures FromTail(Init)
  {
  }

  /** After a pass of the anchor loop, every call whose window has closed has a sealed log for it. */
  lemma ClosedWindowsAreSealed(events: seq<Event>, t: int, e: Entry)
    requires Monotone(events + [Anchor(t)]) && e in Accepted(events) && WindowAt(e.tUs) < WindowAt(t)
    ensures WindowAt(e.tUs) in Run(events + [Anchor(t)]).logs
  {
    hide WindowAt;
    FrontByLast(events, t);
    assert (events + [Anchor(t)])[..|events|] == events;
    NeverEmptied(events, t, WindowAt(e.tUs));
    RunIsConsistent(events, t);
    InItsWindow(Run(events), Accepted(events), e, t);
  }

  /** Memory has something of each window with a tail and no log. */
  lemma {:induction false} NeverEmptied(events: seq<Event>, t: int, w: int)
    requires Monotone(events) && By(events, t)
    ensures Held(Run(events), w) == [] && w !in Run(events).logs ==> Get(Run(events).live, w) == []
    decreases |events|
  {
    hide WindowAt, Tailed, Filter, Sort, Dedup;
    if events != [] {
      var front, ev := events[..|events| - 1], events[|events| - 1];
      LastIsLatest(events, t);
      var u := if ev.Restart? then t else TimeOf(ev);
      RunIsConsistent(front, u);
      NeverEmptied(front, u, w);
      if ev.Restart? {
        RestartHeld(Run(front), Accepted(front), w);
        var tail := Get(Run(front).live, w);
        DedupOfReuse(tail);
        if tail != [] {
          assert CallOf(tail[0]) in CallsIn(Dedup(tail));
        }
      }
    }
  }

  lemma FrontByLast(events: seq<Event>, t: int)
    requires Monotone(events + [Anchor(t)])
    ensures Monotone(events) && By(events, t) && By(events + [Anchor(t)], t)
  {
    var all := events + [Anchor(t)];
    forall i, j | 0 <= i < j < |events| && !events[i].Restart? && !events[j].Restart? ensures TimeOf(events[i]) <= TimeOf(events[j]) {
      assert all[i] == events[i] && all[j] == events[j];
    }
    forall i | 0 <= i < |events| && !events[i].Restart? ensures TimeOf(events[i]) <= t {
      assert all[i] == events[i] && all[|events|] == Anchor(t);
    }
    forall i | 0 <= i < |all| && !all[i].Restart? ensures TimeOf(all[i]) <= t {
      assert i == |events| || all[i] == events[i];
    }
  }

  lemma InItsWindow(st: State, acc: seq<Entry>, e: Entry, t: int)
    requires Tailed(st, acc) && e in acc && WindowAt(e.tUs) < WindowAt(t)
    requires var w := WindowAt(e.tUs); Held(st, w) == [] && w !in st.logs ==> Get(st.live, w) == []
    ensures WindowAt(e.tUs) in Step(st, Anchor(t)).logs
  {
    hide WindowAt, Sort;
    var w := WindowAt(e.tUs);
    FilterElements(OfWindow(w), acc);
    assert e in Get(st.live, w);
  }

  /**
   No call accepted in a closed window is lost or doubled by crashes exactly when no restart before the window was
   sealed found a number twice in the window's tail: the log then has each of its calls as often as it was accepted,
   which is once where no number comes back at all.
   */
  lemma NothingLostOrDoubled(events: seq<Event>, t: int, w: int)
    requires Monotone(events + [Anchor(t)]) && w < WindowAt(t)
    ensures var log := Get(Run(events + [Anchor(t)]).logs, w);
            multiset(log) == multiset(Filter(OfWindow(w), Accepted(events))) <==> RestartsClean(events, w)
  {
    hide WindowAt, Run, Accepted, RestartsClean, Filter, Intact, Cut, Held, Tailed;
    var all := events + [Anchor(t)];
    FrontByLast(events, t);
    CleanBeforeAnchor(events, t, w);
    RunIsConsistent(all, t);
    IntactIffClean(all, t, w);
    var st := Run(all);
    var tail := Get(st.live, w);
    TailOf(st, Accepted(all), w);
    if w in st.logs {
      KeptIffIntact(st, w);
    } else {
      NothingToSeal(events, t, w);
    }
  }

  lemma TailOf(st: State, acc: seq<Entry>, w: int)
    requires Tailed(st, acc)
    ensures Get(st.live, w) == Filter(OfWindow(w), acc)
  {
  }

  lemma CleanBeforeAnchor(events: seq<Event>, t: int, w: int)
    ensures RestartsClean(events + [Anchor(t)], w) <==> RestartsClean(events, w)
    ensures Accepted(events + [Anchor(t)]) == Accepted(events)
  {
    hide RestartsClean, Run;
    var all := events + [Anchor(t)];
    assert all[..|events|] == events;
    CleanOneMore(all, w);
  }

  lemma KeptIffIntact(st: State, w: int)
    requires w in st.logs
    ensures Intact(st, w) ==> multiset(Get(st.logs, w)) == multiset(Get(st.live, w))
    ensures Cut(st, w) ==> multiset(Get(st.logs, w)) != multiset(Get(st.live, w))
  {
    hide Sort;
    SortElements(LeafLeq, Get(st.live, w));
    if Cut(st, w) {
      assert |multiset(Get(st.logs, w))| < |multiset(Get(st.live, w))|;
    }
  }

  /** A closed window without a log had no call. */
  lemma NothingToSeal(events: seq<Event>, t: int, w: int)
    requires Monotone(events + [Anchor(t)]) && w < WindowAt(t) && w !in Run(events + [Anchor(t)]).logs
    ensures Filter(OfWindow(w), Accepted(events)) == [] && RestartsClean(events, w)
  {
    var none := Filter(OfWindow(w), Accepted(events));
    FilterElements(OfWindow(w), Accepted(events));
    if none != [] {
      ClosedWindowsAreSealed(events, t, none[0]);
      assert false;
    }
    hide WindowAt, Run, Accepted, Filter;
    FrontByLast(events, t);
    RunIsConsistent(events, t);
    IntactIffClean(events, t, w);
  }

  /** Where no number comes back in its window, an accepted call is in the log of its window once, and in no other. */
  lemma FreshCallsAreKeptOnce(events: seq<Event>, t: int, e: Entry, w: int)
    requires Monotone(events + [Anchor(t)]) && e in Accepted(events) && WindowAt(e.tUs) < WindowAt(t)
    requires NoReuse(Filter(OfWindow(WindowAt(e.tUs)), Accepted(events)))
    ensures multiset(Get(Run(events + [Anchor(t)]).logs, w))[e] == if w == WindowAt(e.tUs) then 1 else 0
  {
    hide WindowAt, Run, Accepted, Filter, NoReuse, RestartsClean, Tailed, Get;
    var own := WindowAt(e.tUs);
    var all := events + [Anchor(t)];
    FrontByLast(events, t);
    if w == own {
      RunIsConsistent(events, t);
      IntactIffClean(events, t, w);
      TailOf(Run(events), Accepted(events), w);
      NothingLostOrDoubled(events, t, w);
      var kept := Filter(OfWindow(w), Accepted(events));
      FilterElements(OfWindow(w), Accepted(events));
      OnlyOnce(kept, e);
    } else if e in Get(Run(all).logs, w) {
      LogsHoldNoOther(all, t, w, e);
      assert false;
    }
  }

  lemma {:induction false} OnlyOnce(acc: seq<Entry>, e: Entry)
    requires NoReuse(acc) && e in acc
    ensures multiset(acc)[e] == 1
    decreases |acc|
  {
    var front, last := acc[..|acc| - 1], acc[|acc| - 1];
    assert acc == front + [last];
    if e in front {
      var i :| 0 <= i < |front| && front[i] == e;
      assert acc[i] == e && (acc[i].hk != acc[|acc| - 1].hk || acc[i].seqNo != acc[|acc| - 1].seqNo);
      OnlyOnce(front, e);
    } else {
      assert last == e;
      assert e !in multiset(front);
    }
  }

  // ---------------------------------------------------------------- windows and leaves

  /** A window starts at the multiple of 180 seconds at or before the receipt. */
  lemma WindowIsGrid(t: int)
    ensures WindowAt(t) % 180_000 == 0 && WindowAt(t) * 1000 <= t < (WindowAt(t) + 180_000) * 1000
  {
    var ms := t / 1000;
    assert 1000 * ms <= t < 1000 * ms + 1000;
    var q := ms / 180_000;
    assert WindowAt(t) == q * 180_000 && 180_000 * q <= ms < 180_000 * q + 180_000;
  }

  /** Every log is in leaf order. */
  ghost predicate LogsOrdered(st: State)
  {
    forall w :: w in st.logs ==> InLeafOrder(st.logs[w])
  }

  /** By receipt time; of calls received at once by hotkey, then by sequence number. */
  ghost predicate InLeafOrder(log: seq<Entry>)
  {
    forall i, j :: 0 <= i < j < |log| ==>
      || log[i].tUs < log[j].tUs
      || (log[i].tUs == log[j].tUs && log[i].hk < log[j].hk)
      || (log[i].tUs == log[j].tUs && log[i].hk == log[j].hk && log[i].seqNo <= log[j].seqNo)
  }

  lemma SortedIsOrdered(s: seq<Entry>)
    ensures InLeafOrder(Sort(LeafLeq, s))
  {
    SortOrdered(LeafLeq, s);
  }

  lemma StepKeepsOrder(st: State, ev: Event)
    requires LogsOrdered(st)
    ensures LogsOrdered(Step(st, ev))
  {
    hide WindowAt, Dedup, InLeafOrder, Accepts;
    if ev.Anchor? {
      forall w | w in st.windows ensures InLeafOrder(Sort(LeafLeq, st.windows[w])) {
        SortedIsOrdered(st.windows[w]);
      }
      hide Sort;
    }
  }

  /** On every run, whatever crashed, each log is in the order of receipt times, hotkeys and sequence numbers. */
  lemma {:induction false} LogsAreInOrder(events: seq<Event>, w: int)
    ensures w in Run(events).logs ==> InLeafOrder(Run(events).logs[w])
    ensures LogsOrdered(Run(events))
    decreases |events|
  {
    hide Step, InLeafOrder;
    if events != [] {
      LogsAreInOrder(events[..|events| - 1], w);
      StepKeepsOrder(Run(events[..|events| - 1]), events[|events| - 1]);
    }
  }

  // ---------------------------------------------------------------- sequence numbers within a process

  /** What a stretch of events accepts from a state. */
  function AcceptedFrom(st: State, events: seq<Event>): seq<Entry>
    decreases |events|
  {
    if events == [] then []
    else (if Accepts(st, events[0]) then [events[0].e] else []) + AcceptedFrom(Step(st, events[0]), events[1..])
  }

  /** Sequence numbers increase per hotkey, from above the last accepted one. */
  ghost predicate Increasing(lastSeq: map<nat, int>, acc: seq<Entry>)
  {
    && (forall i :: 0 <= i < |acc| ==> Last(lastSeq, acc[i].hk) < acc[i].seqNo)
    && (forall i, j :: 0 <= i < j < |acc| && acc[i].hk == acc[j].hk ==> acc[i].seqNo < acc[j].seqNo)
  }

  /** Within one process a hotkey's accepted sequence numbers strictly increase, and exceed its last one. */
  lemma {:induction false} SeqsIncrease(st: State, events: seq<Event>)
    requires forall i :: 0 <= i < |events| ==> !events[i].Restart?
    ensures Increasing(st.lastSeq, AcceptedFrom(st, events))
    decreases |events|
  {
    hide WindowAt, Get;
    if events != [] {
      var n := Step(st, events[0]);
      SeqsIncrease(n, events[1..]);
      var rest := AcceptedFrom(n, events[1..]);
      if Accepts(st, events[0]) {
        FirstThenRest(st.lastSeq, n.lastSeq, events[0].e, rest);
      } else {
        assert n.lastSeq == st.lastSeq;
        assert AcceptedFrom(st, events) == rest;
      }
    }
  }

  /** Where a stretch of events leads. */
  function After(st: State, events: seq<Event>): State
    decreases |events|
  {
    if events == [] then st else After(Step(st, events[0]), events[1..])
  }

  /** The last number kept of a hotkey is the largest of the one before and those accepted since. */
  lemma {:induction false} LastIsGreatest(st: State, events: seq<Event>, hk: nat)
    requires forall i :: 0 <= i < |events| ==> !events[i].Restart?
    ensures var last, acc := Last(After(st, events).lastSeq, hk), AcceptedFrom(st, events);
            && Last(st.lastSeq, hk) <= last
            && (forall x :: x in acc && x.hk == hk ==> x.seqNo <= last)
            && (last == Last(st.lastSeq, hk) || exists x :: x in acc && x.hk == hk && x.seqNo == last)
    decreases |events|
  {
    hide WindowAt, Get;
    if events != [] {
      var n := Step(st, events[0]);
      LastIsGreatest(n, events[1..], hk);
      var last, rest := Last(After(n, events[1..]).lastSeq, hk), AcceptedFrom(n, events[1..]);
      if Accepts(st, events[0]) {
        var e := events[0].e;
        assert AcceptedFrom(st, events) == [e] + rest;
        assert e in [e] + rest;
        if last == Last(n.lastSeq, hk) && hk == e.hk {
          assert e.hk == hk && e.seqNo == last;
        }
      } else {
        assert n.lastSeq == st.lastSeq;
        assert AcceptedFrom(st, events) == rest;
      }
    }
  }

  /** A process that has just started accepts a call exactly when its number is not negative and larger than all it has
      accepted of the hotkey. */
  lemma AcceptedIffNew(st: State, events: seq<Event>, e: Entry)
    requires st.lastSeq == map[] && forall i :: 0 <= i < |events| ==> !events[i].Restart?
    ensures Accepts(After(st, events), Submit(e))
            <==> 0 <= e.seqNo && forall x :: x in AcceptedFrom(st, events) && x.hk == e.hk ==> x.seqNo < e.seqNo
  {
    LastIsGreatest(st, events, e.hk);
  }

  lemma FirstThenRest(before: map<nat, int>, after: map<nat, int>, e: Entry, rest: seq<Entry>)
    requires Last(before, e.hk) < e.seqNo && after == before[e.hk := e.seqNo]
    requires Increasing(after, rest)
    ensures Increasing(before, [e] + rest)
  {
    var acc := [e] + rest;
    assert forall i :: 0 < i < |acc| ==> acc[i] == rest[i - 1];
    forall i | 0 <= i < |acc| ensures Last(before, acc[i].hk) < acc[i].seqNo {
      if i > 0 {
        assert Last(after, rest[i - 1].hk) < rest[i - 1].seqNo;
      }
    }
  }

  // ---------------------------------------------------------------- reuse

  const FIRST := Entry(0, 1, 1000, 0)
  const AGAIN := Entry(0, 1, 2000, 1)

  /** Both calls are accepted, the second after a restart; then the process restarts once more. */
  lemma ReusedNumberIsAccepted()
    ensures var st := Step(Step(Init, Submit(FIRST)), Restart);
            Accepts(st, Submit(AGAIN)) && Step(st, Submit(AGAIN)).live == map[0 := [FIRST, AGAIN]] && Step(st, Submit(AGAIN)).logs == map[]
  {
    assert WindowAt(1000) == 0 && WindowAt(2000) == 0;
    assert [FIRST][..0] == [] && [] + [FIRST] == [FIRST] && [FIRST] + [AGAIN] == [FIRST, AGAIN];
    assert Dedup([FIRST]) == [FIRST];
    var st := Step(Init, Submit(FIRST));
    assert st.live == map[0 := [FIRST]];
    assert Step(st, Restart).live == map[0 := [FIRST]];
  }

  /** A sequence number reused after a restart, in the same window, costs the second call at the next restart. */
  lemma ReuseLosesACall(st: State)
    requires st.live == map[0 := [FIRST, AGAIN]] && st.logs == map[]
    ensures Get(Step(st, Restart).windows, 0) == [FIRST]
  {
    assert [FIRST][..0] == [] && [FIRST, AGAIN][..1] == [FIRST] && [] + [FIRST] == [FIRST];
    assert Dedup([FIRST]) == [FIRST] && Dedup([FIRST, AGAIN]) == [FIRST];
    hide Dedup, WindowAt;
  }

  // ---------------------------------------------------------------- the service

  /** The logs with some windows sealed. */
  function SealAll(windows: Buffers, logs: Buffers, ws: set<int>): Buffers
    requires ws <= windows.Keys
  {
    logs + map w | w in ws :: Sort(LeafLeq, windows[w])
  }

  lemma SealNone(windows: Buffers, logs: Buffers)
    ensures SealAll(windows, logs, {}) == logs
  {
  }

  lemma SealOneMore(windows: Buffers, logs: Buffers, ws: set<int>, w: int)
    requires ws <= windows.Keys && w in windows && w !in ws
    ensures SealAll(windows, logs, ws + {w}) == SealAll(windows, logs, ws)[w := Sort(LeafLeq, windows[w])]
    ensures Get(windows - ws, w) == windows[w]
  {
    hide Sort;
  }

  /** The process and its disk: the methods of the source, each doing one step of the run. */
  class Ingest {
    var lastSeq: map<nat, int>
    var windows: Buffers
    var live: Buffers
    var logs: Buffers

    constructor ()
      ensures Value() == Init
    {
      lastSeq, windows, live, logs := map[], map[], map[], map[];
    }

    ghost function Value(): State
      reads this
    {
      State(lastSeq, windows, live, logs)
    }

    /** Accepts a call with a new sequence number: receipt, memory and live tail. */
    method Handle(e: Entry) returns (accepted: bool)
      modifies this`lastSeq, this`windows, this`live
      ensures accepted == Accepts(old(Value()), Submit(e))
      ensures Value() == Step(old(Value()), Submit(e))
    {
      if e.seqNo <= Last(lastSeq, e.hk) {
        return false;
      }
      lastSeq := lastSeq[e.hk := e.seqNo];
      var w := WindowAt(e.tUs);
      windows := windows[w := Get(windows, w) + [e]];
      RecordLive(e);
      return true;
    }

    method RecordLive(e: Entry)
      modifies this`live
      ensures live == old(live)[WindowAt(e.tUs) := Get(old(live), WindowAt(e.tUs)) + [e]]
    {
      var w := WindowAt(e.tUs);
      live := live[w := Get(live, w) + [e]];
    }

    /** Writes the window's log in leaf order and forgets the window. */
    method SealWindow(w: int)
      modifies this`windows, this`logs
      ensures windows == old(windows) - {w}
      ensures logs == old(logs)[w := Sort(LeafLeq, Get(old(windows), w))]
    {
      var ordered := Sort(LeafLeq, Get(windows, w));
      windows := windows - {w};
      logs := logs[w := ordered];
    }

    /** One pass of the anchor loop: seals every window in memory that has ended. */
    method AnchorPass(tUs: int)
      modifies this`windows, this`logs
      ensures Value() == Step(old(Value()), Anchor(tUs))
    {
      hide WindowAt, Sort;
      var cur := WindowAt(tUs);
      var rest := set w | w in windows && w < cur;
      ghost var all := rest;
      SealNone(old(windows), logs);
      while rest != {}
        invariant rest <= all && all <= old(windows).Keys
        invariant windows == old(windows) - (all - rest)
        invariant logs == SealAll(old(windows), old(logs), all - rest)
        decreases rest
      {
        ghost var some := Member(rest);
        var w :| w in rest;
        SealOneMore(old(windows), old(logs), all - rest, w);
        assert all - rest + {w} == all - (rest - {w});
        SealWindow(w);
        rest := rest - {w};
      }
      assert all - rest == all;
    }

    /** Refills memory from the live tail for every window without a sealed log, one row per call. */
    method RehydrateWindows()
      modifies this`windows
      ensures windows == Refill(old(windows), live, logs, {})
    {
      hide Dedup, Refill, Get;
      var rest := live.Keys;
      NothingRefilled(windows, live, logs);
      while rest != {}
        invariant rest <= live.Keys && windows == Refill(old(windows), live, logs, rest)
        decreases rest
      {
        ghost var some := Member(rest);
        var w :| w in rest;
        RefillOne(old(windows), live, logs, rest, w);
        if w !in logs {
          var rows := ReadTail(live[w]);
          if rows != [] {
            windows := windows[w := Get(windows, w) + rows];
          }
        }
        rest := rest - {w};
      }
    }

    /** A crash loses what is in memory; the next process starts from the tail. */
    method RestartProcess()
      modifies this`lastSeq, this`windows
      ensures Value() == Step(old(Value()), Restart)
    {
      hide Dedup;
      lastSeq, windows := map[], map[];
      RehydrateWindows();
      RefillEmpty(live, logs);
    }
  }

  /** The window has no sealed log and its tail holds rows. */
  predicate Wanted(live: Buffers, logs: Buffers, w: int)
    requires w in live
  {
    w !in logs && Dedup(live[w]) != []
  }

  function Joined(windows: Buffers, live: Buffers, w: int): seq<Entry>
    requires w in live
  {
    Get(windows, w) + Dedup(live[w])
  }

  /** Memory with the tails of all windows but `rest` added, where there is no sealed log. */
  function Refill(windows: Buffers, live: Buffers, logs: Buffers, rest: set<int>): Buffers
  {
    windows + map w | w in live && w !in rest && Wanted(live, logs, w) :: Joined(windows, live, w)
  }

  lemma NothingRefilled(windows: Buffers, live: Buffers, logs: Buffers)
    ensures Refill(windows, live, logs, live.Keys) == windows
  {
    hide Joined, Wanted;
  }

  lemma RefillOne(windows: Buffers, live: Buffers, logs: Buffers, rest: set<int>, w: int)
    requires w in rest && rest <= live.Keys
    ensures var now := Refill(windows, live, logs, rest);
            && Refill(windows, live, logs, rest - {w}) == (if Wanted(live, logs, w) then now[w := Joined(windows, live, w)] else now)
            && Get(now, w) == Get(windows, w)
  {
    hide Joined, Wanted;
    var now, next := Refill(windows, live, logs, rest), Refill(windows, live, logs, rest - {w});
    var expected := if Wanted(live, logs, w) then now[w := Joined(windows, live, w)] else now;
    forall v ensures (v in next <==> v in expected) && (v in next ==> next[v] == expected[v]) {
    }
  }

  lemma RefillEmpty(live: Buffers, logs: Buffers)
    ensures Refill(map[], live, logs, {}) == map w | w in live && w !in logs && Dedup(live[w]) != [] :: Dedup(live[w])
  {
    hide Dedup;
    var a := Refill(map[], live, logs, {});
    forall w | w in a ensures a[w] == Dedup(live[w]) {
      assert [] + Dedup(live[w]) == Dedup(live[w]);
    }
  }

  /** The rows of a tail, each call once. */
  method ReadTail(tail: seq<Entry>) returns (rows: seq<Entry>)
    ensures rows == Dedup(tail)
  {
    var seen: set<(nat, int)> := {};
    rows := [];
    for i := 0 to |tail|
      invariant rows == Dedup(tail[..i]) && seen == CallsIn(rows)
    {
      assert tail[..i + 1][..i] == tail[..i];
      if CallOf(tail[i]) !in seen {
        SeenOneMore(rows, tail[i]);
        seen := seen + {CallOf(tail[i])};
        rows := rows + [tail[i]];
      }
    }
    assert tail[..|tail|] == tail;
  }

  lemma SeenOneMore(rows: seq<Entry>, e: Entry)
    ensures CallsIn(rows + [e]) == CallsIn(rows) + {CallOf(e)}
  {
    assert forall x :: x in rows + [e] <==> x in rows || x == e;
  }

}
