/**
 How a day of tick shards is thinned while it streams by
 (sn89_signals/agent_books_io.py, thin_day and load_thin_range).
 */
module ThinPass {
  import opened Wrappers
  import opened AgentBooks
  import opened Sorting
  import opened TickSimulation
  import opened TickThinning
  import opened TickShards

  // ---------------------------------------------------------------- the day's relevant rows

  /** The rows of a day that are of one of the day's pairs. */
  function Relevant(pairs: set<Pair>, day: int): Tick -> bool
  {
    (t: Tick) => t.a in pairs && day <= t.t < day + DAY_MS
  }

  ghost function RelevantStream(read: Reader, pairs: set<Pair>, day: int, w: int, stop: int): seq<Tick>
  {
    Filter(Relevant(pairs, day), FullStream(read, w, stop))
  }

  lemma RowsStep(lines: seq<Line>, n: nat, keep: Tick -> bool)
    requires n < |lines|
    ensures Filter(keep, Rows(lines[..n + 1]))
            == Filter(keep, Rows(lines[..n])) + (if lines[n].Row? && keep(lines[n].tick) then [lines[n].tick] else [])
  {
    hide Filter;
    assert lines[..n + 1][..n] == lines[..n];
    if lines[n].Row? {
      FilterConcat(keep, Rows(lines[..n]), [lines[n].tick]);
      FilterOne(keep, lines[n].tick);
    }
  }

  method RelevantRows(lines: seq<Line>, pairs: set<Pair>, day: int) returns (rows: seq<Tick>)
    ensures rows == Filter(Relevant(pairs, day), Sort(TickLeq, Rows(lines)))
  {
    NoRows(Relevant(pairs, day));
    hide Filter, Rows, Sort;
    rows := [];
    assert lines[..0] == [];
    for n := 0 to |lines|
      invariant rows == Filter(Relevant(pairs, day), Rows(lines[..n]))
    {
      RowsStep(lines, n, Relevant(pairs, day));
      var l := lines[n];
      if l.Row? && l.tick.a in pairs && day <= l.tick.t < day + DAY_MS {
        rows := rows + [l.tick];
      }
    }
    assert lines[..|lines|] == lines;
    TickOrder();
    FilterOfSort(TickLeq, Relevant(pairs, day), Rows(lines));
    rows := Sort(TickLeq, rows);
  }

  lemma NoRows(keep: Tick -> bool)
    ensures Filter(keep, Rows([])) == []
  {
  }

  // ---------------------------------------------------------------- eligible times of the day

  /** For each pair the eligible times inside the day, in order. */
  ghost predicate EligibleTimes(elig: map<Pair, seq<int>>, delay: nat, rs: seq<Receipt>, pairs: set<Pair>, day: int)
  {
    && (forall p :: p in elig ==> Ordered((x: int, y: int) => x <= y, elig[p]))
    && (forall p, e :: (p in elig && e in elig[p]) <==> (p in pairs && Due(delay, rs, p, e) && day <= e < day + DAY_MS))
  }

  function KeySeq(r: Receipt): seq<Pair>
  {
    if r.targets.Dict? then seq(|r.targets.entries|, i requires 0 <= i < |r.targets.entries| => r.targets.entries[i].0)
    else []
  }

  lemma KeySeqIsKeys(r: Receipt)
    ensures forall p :: p in KeySeq(r) <==> p in Keys(r)
  {
    forall p | p in Keys(r) ensures p in KeySeq(r) {
      var e :| e in r.targets.entries && e.0 == p;
      var i :| 0 <= i < |r.targets.entries| && r.targets.entries[i] == e;
      assert KeySeq(r)[i] == p;
    }
  }

  function TimesOf(elig: map<Pair, seq<int>>, p: Pair): seq<int>
  {
    if p in elig then elig[p] else []
  }

  method CollectEligible(delay: nat, rs: seq<Receipt>, pairs: set<Pair>, day: int)
    returns (elig: map<Pair, seq<int>>)
    ensures EligibleTimes(elig, delay, rs, pairs, day)
  {
    elig := map[];
    for n := 0 to |rs|
      invariant forall p, e :: e in TimesOf(elig, p)
                  <==> (p in pairs && Due(delay, rs[..n], p, e) && day <= e < day + DAY_MS)
    {
      var r := rs[n];
      var e := r.tRecv + delay;
      forall p, x ensures Due(delay, rs[..n + 1], p, x) <==> Due(delay, rs[..n], p, x) || (p in Keys(r) && x == e) {
        DueOneMore(delay, rs, n, p, x);
      }
      if day <= e < day + DAY_MS {
        var keys := KeySeq(r);
        KeySeqIsKeys(r);
        ghost var before := elig;
        for m := 0 to |keys|
          invariant forall p, x :: x in TimesOf(elig, p)
                      <==> x in TimesOf(before, p) || (p in pairs && p in keys[..m] && x == e)
        {
          if keys[m] in pairs {
            elig := elig[keys[m] := TimesOf(elig, keys[m]) + [e]];
          }
          assert keys[..m + 1] == keys[..m] + [keys[m]];
        }
        assert keys[..|keys|] == keys;
      }
    }
    assert rs[..|rs|] == rs;
    var le := (x: int, y: int) => x <= y;
    ghost var raw := elig;
    elig := map p | p in elig :: Sort(le, elig[p]);
    forall p | p in elig ensures Ordered(le, elig[p]) && forall e :: e in elig[p] <==> e in raw[p] {
      SortOrdered(le, raw[p]);
      SortElements(le, raw[p]);
    }
    forall p, e ensures (p in elig && e in elig[p]) <==> e in TimesOf(raw, p) {
    }
  }

  lemma DueOneMore(delay: nat, rs: seq<Receipt>, n: nat, p: Pair, e: int)
    requires n < |rs|
    ensures Due(delay, rs[..n + 1], p, e) <==> Due(delay, rs[..n], p, e) || (p in Keys(rs[n]) && rs[n].tRecv + delay == e)
  {
    assert rs[..n + 1] == rs[..n] + [rs[n]];
  }

  // ---------------------------------------------------------------- the state of the scan

  /** Kept so far: candidate groups and the marks before them. */
  ghost predicate KeptSoFar(delay: nat, rs: seq<Receipt>, rel: seq<Tick>, j: int)
  {
    0 <= j < |rel| && (CandidateTime(delay, rs, rel, rel[j].t) || exists i :: MarksGroup(delay, rs, rel, j, i))
  }

  ghost predicate LastsRight(rel: seq<Tick>, last: map<Pair, (nat, Tick)>)
  {
    && (forall p :: p in last ==> LastBefore(rel, |rel|, p, last[p].0) && last[p].1 == rel[last[p].0])
    && (forall j :: 0 <= j < |rel| ==> rel[j].a in last)
  }

  ghost predicate KeepRight(delay: nat, rs: seq<Receipt>, rel: seq<Tick>, keep: map<nat, Tick>)
  {
    && (forall j :: j in keep <==> KeptSoFar(delay, rs, rel, j))
    && (forall j :: j in keep ==> j < |rel| && keep[j] == rel[j])
  }

  /** A pair's cursor has passed exactly the eligible times some tick of the pair has reached. */
  ghost predicate CursorsRight(rel: seq<Tick>, elig: map<Pair, seq<int>>, ptr: map<Pair, nat>)
  {
    && ptr.Keys == elig.Keys
    && (forall p :: p in elig ==> ptr[p] <= |elig[p]|)
    && (forall p, k :: p in elig && 0 <= k < ptr[p] ==> !NoneSince(rel, |rel|, p, elig[p][k]))
    && (forall p, k :: p in elig && ptr[p] <= k < |elig[p]| ==> NoneSince(rel, |rel|, p, elig[p][k]))
  }

  // ---------------------------------------------------------------- a group of ticks at one time

  /** `group` follows `rel`: one later time, the same day. */
  ghost predicate NextGroup(rel: seq<Tick>, group: seq<Tick>, day: int)
  {
    && group != []
    && (forall k :: 0 <= k < |group| ==> group[k].t == group[0].t)
    && (forall k :: 0 <= k < |rel| ==> rel[k].t < group[0].t)
    && (forall k :: 0 <= k < |rel| ==> DayStart(rel[k].t) == day)
    && DayStart(group[0].t) == day
  }

  lemma PrefixCandidate(delay: nat, rs: seq<Receipt>, rel: seq<Tick>, group: seq<Tick>, i: int)
    requires i < |rel|
    ensures FillCandidate(delay, rs, rel + group, i) <==> FillCandidate(delay, rs, rel, i)
  {
    var all := rel + group;
    assert forall k :: 0 <= k < |rel| ==> all[k] == rel[k];
    if 0 <= i {
      assert FirstOfDay(all, i) <==> FirstOfDay(rel, i);
      forall e ensures FirstSince(all, i, e) <==> FirstSince(rel, i, e) {
      }
    }
  }

  lemma EarlierCandidateTimes(delay: nat, rs: seq<Receipt>, rel: seq<Tick>, group: seq<Tick>, day: int, t: int)
    requires NextGroup(rel, group, day) && t < group[0].t
    ensures CandidateTime(delay, rs, rel + group, t) <==> CandidateTime(delay, rs, rel, t)
  {
    hide FillCandidate;
    var all := rel + group;
    if CandidateTime(delay, rs, all, t) {
      assert forall k :: |rel| <= k < |all| ==> all[k] == group[k - |rel|];
      var i :| 0 <= i < |all| && all[i].t == t && FillCandidate(delay, rs, all, i);
      assert i < |rel|;
      PrefixCandidate(delay, rs, rel, group, i);
      assert rel[i].t == t;
    }
    if CandidateTime(delay, rs, rel, t) {
      var i :| 0 <= i < |rel| && rel[i].t == t && FillCandidate(delay, rs, rel, i);
      PrefixCandidate(delay, rs, rel, group, i);
      assert all[i].t == t;
    }
  }

  lemma GroupTimeCandidate(delay: nat, rs: seq<Receipt>, rel: seq<Tick>, group: seq<Tick>, day: int)
    requires NextGroup(rel, group, day)
    ensures CandidateTime(delay, rs, rel + group, group[0].t)
            <==> exists i :: |rel| <= i < |rel + group| && FillCandidate(delay, rs, rel + group, i)
  {
    hide FillCandidate;
    var all := rel + group;
    if i :| |rel| <= i < |all| && FillCandidate(delay, rs, all, i) {
      assert all[i] == group[i - |rel|];
      assert all[i].t == group[0].t;
    }
  }

  /** An older tick is kept after the group iff it was kept before, or the group is a candidate and it is the
      last of its pair. */
  lemma OlderTickKept(delay: nat, rs: seq<Receipt>, rel: seq<Tick>, group: seq<Tick>, day: int, j: int)
    requires NextGroup(rel, group, day) && 0 <= j < |rel|
    ensures KeptSoFar(delay, rs, rel + group, j) <==>
            KeptSoFar(delay, rs, rel, j)
            || (CandidateTime(delay, rs, rel + group, group[0].t) && LastBefore(rel, |rel|, rel[j].a, j))
  {
    hide FillCandidate, CandidateTime;
    var all := rel + group;
    assert forall k :: 0 <= k < |rel| ==> all[k] == rel[k];
    assert forall k :: |rel| <= k < |all| ==> all[k] == group[k - |rel|];
    EarlierCandidateTimes(delay, rs, rel, group, day, rel[j].t);
    GroupTimeCandidate(delay, rs, rel, group, day);
    if i :| MarksGroup(delay, rs, all, j, i) {
      if i < |rel| {
        PrefixCandidate(delay, rs, rel, group, i);
        assert LastSeenAt(rel, j, rel[i].t);
        assert MarksGroup(delay, rs, rel, j, i);
      } else {
        assert LastBefore(rel, |rel|, rel[j].a, j);
      }
    }
    if i :| MarksGroup(delay, rs, rel, j, i) {
      PrefixCandidate(delay, rs, rel, group, i);
      assert LastSeenAt(all, j, all[i].t);
      assert MarksGroup(delay, rs, all, j, i);
    }
    if CandidateTime(delay, rs, all, group[0].t) && LastBefore(rel, |rel|, rel[j].a, j) {
      var i :| |rel| <= i < |all| && FillCandidate(delay, rs, all, i);
      assert LastSeenAt(all, j, all[i].t);
      assert MarksGroup(delay, rs, all, j, i);
    }
  }

  /** A tick of the group itself is kept iff the group is a candidate. */
  lemma GroupTickKept(delay: nat, rs: seq<Receipt>, rel: seq<Tick>, group: seq<Tick>, day: int, j: int)
    requires NextGroup(rel, group, day) && |rel| <= j < |rel + group|
    ensures KeptSoFar(delay, rs, rel + group, j) <==> CandidateTime(delay, rs, rel + group, group[0].t)
  {
    hide FillCandidate, CandidateTime;
    var all := rel + group;
    assert all[j] == group[j - |rel|];
    forall i ensures !MarksGroup(delay, rs, all, j, i) {
      if 0 <= i < |all| {
        assert all[i].t <= group[0].t by {
          if i < |rel| { assert all[i] == rel[i]; } else { assert all[i] == group[i - |rel|]; }
        }
      }
    }
  }

  // ---------------------------------------------------------------- is the group a candidate?

  /** After `before`, the tick is a candidate by what the scan looks at: its pair is new to the day, or one of
      the pair's eligible times meets its first tick here. */
  ghost predicate SpotsTick(before: seq<Tick>, tick: Tick, elig: map<Pair, seq<int>>, seen: set<Pair>)
  {
    tick.a !in seen ||
    (tick.a in elig && exists e :: e in elig[tick.a] && e <= tick.t && NoneSince(before, |before|, tick.a, e))
  }

  ghost predicate SpotsCandidate(rel: seq<Tick>, group: seq<Tick>, elig: map<Pair, seq<int>>, seen: set<Pair>, x: int)
  {
    0 <= x < |group| && SpotsTick(rel + group[..x], group[x], elig, seen)
  }

  lemma FirstInGroup(group: seq<Tick>, x: nat) returns (y: nat)
    requires x < |group|
    ensures y <= x && group[y].a == group[x].a && forall k :: 0 <= k < y ==> group[k].a != group[x].a
  {
    y := 0;
    while group[y].a != group[x].a
      invariant y <= x && forall k :: 0 <= k < y ==> group[k].a != group[x].a
      decreases x - y
    {
      y := y + 1;
    }
  }

  lemma SpottedIsCandidate(delay: nat, rs: seq<Receipt>, pairs: set<Pair>, rel: seq<Tick>, group: seq<Tick>, day: int,
                           elig: map<Pair, seq<int>>, seen: set<Pair>, x: int)
    requires NextGroup(rel, group, day) && EligibleTimes(elig, delay, rs, pairs, day)
    requires forall p :: p in seen <==> exists j :: 0 <= j < |rel| && rel[j].a == p
    requires SpotsCandidate(rel, group, elig, seen, x)
    ensures CandidateTime(delay, rs, rel + group, group[0].t)
  {
    var all := rel + group;
    assert forall k :: 0 <= k < |rel| ==> all[k] == rel[k];
    assert forall k :: |rel| <= k < |all| ==> all[k] == group[k - |rel|];
    var i;
    if group[x].a !in seen {
      var y := FirstInGroup(group, x);
      i := |rel| + y;
      assert FirstOfDay(all, i);
    } else {
      i := |rel| + x;
      var e :| group[x].a in elig && e in elig[group[x].a] && e <= group[x].t
               && NoneSince(rel + group[..x], |rel| + x, group[x].a, e);
      assert Due(delay, rs, group[x].a, e) && day <= e;
      forall k | 0 <= k < i && all[k].a == group[x].a ensures all[k].t < e {
        assert (rel + group[..x])[k] == all[k];
      }
      assert FirstSince(all, i, e);
    }
    assert FillCandidate(delay, rs, all, i);
    assert all[i].t == group[0].t;
  }

  lemma CandidateIsSpotted(delay: nat, rs: seq<Receipt>, pairs: set<Pair>, rel: seq<Tick>, group: seq<Tick>, day: int,
                           elig: map<Pair, seq<int>>, seen: set<Pair>) returns (x: int)
    requires NextGroup(rel, group, day) && EligibleTimes(elig, delay, rs, pairs, day)
    requires forall p :: p in seen <==> exists j :: 0 <= j < |rel| && rel[j].a == p
    requires forall k :: 0 <= k < |group| ==> group[k].a in pairs
    requires CandidateTime(delay, rs, rel + group, group[0].t)
    ensures SpotsCandidate(rel, group, elig, seen, x)
  {
    var all := rel + group;
    assert forall k :: 0 <= k < |rel| ==> all[k] == rel[k];
    assert forall k :: |rel| <= k < |all| ==> all[k] == group[k - |rel|];
    GroupTimeCandidate(delay, rs, rel, group, day);
    var i :| |rel| <= i < |all| && FillCandidate(delay, rs, all, i);
    x := i - |rel|;
    var p := group[x].a;
    if FirstOfDay(all, i) {
      assert p !in seen;
    } else {
      var e :| Due(delay, rs, all[i].a, e) && DayStart(all[i].t) <= e && FirstSince(all, i, e);
      assert day <= e < day + DAY_MS;
      assert p in elig && e in elig[p];
      forall k | 0 <= k < |rel| + x && (rel + group[..x])[k].a == p ensures (rel + group[..x])[k].t < e {
        assert all[k] == (rel + group[..x])[k];
      }
    }
  }

  // ---------------------------------------------------------------- scanning a group

  lemma CursorsAfterTick(rel: seq<Tick>, tick: Tick, elig: map<Pair, seq<int>>, ptr: map<Pair, nat>, k: nat)
    requires CursorsRight(rel, elig, ptr)
    requires tick.a in elig && ptr[tick.a] <= k <= |elig[tick.a]|
    requires forall x :: ptr[tick.a] <= x < k ==> elig[tick.a][x] <= tick.t
    requires forall x :: k <= x < |elig[tick.a]| ==> tick.t < elig[tick.a][x]
    ensures CursorsRight(rel + [tick], elig, ptr[tick.a := k])
  {
    NoneSinceGrows(rel, tick);
  }

  lemma CursorsUntouched(rel: seq<Tick>, tick: Tick, elig: map<Pair, seq<int>>, ptr: map<Pair, nat>)
    requires CursorsRight(rel, elig, ptr) && tick.a !in elig
    ensures CursorsRight(rel + [tick], elig, ptr)
  {
    NoneSinceGrows(rel, tick);
  }

  lemma NoneSinceGrows(rel: seq<Tick>, tick: Tick)
    ensures forall p, e :: NoneSince(rel + [tick], |rel + [tick]|, p, e)
              <==> NoneSince(rel, |rel|, p, e) && (tick.a == p ==> tick.t < e)
  {
    var all := rel + [tick];
    forall p, e ensures NoneSince(all, |all|, p, e) <==> NoneSince(rel, |rel|, p, e) && (tick.a == p ==> tick.t < e) {
      assert forall k :: 0 <= k < |rel| ==> all[k] == rel[k];
      assert all[|rel|] == tick;
    }
  }

  /** Whether the scan moves a cursor says whether an eligible time meets its first tick here. */
  lemma CursorMovesIffDue(rel: seq<Tick>, tick: Tick, elig: map<Pair, seq<int>>, ptr: map<Pair, nat>)
    requires CursorsRight(rel, elig, ptr) && tick.a in elig
    requires Ordered((x: int, y: int) => x <= y, elig[tick.a])
    ensures (ptr[tick.a] < |elig[tick.a]| && elig[tick.a][ptr[tick.a]] <= tick.t)
            <==> exists e :: e in elig[tick.a] && e <= tick.t && NoneSince(rel, |rel|, tick.a, e)
  {
    var q, k := elig[tick.a], ptr[tick.a];
    if e :| e in q && e <= tick.t && NoneSince(rel, |rel|, tick.a, e) {
      var x :| 0 <= x < |q| && q[x] == e;
      assert k <= x;
    }
  }

  /** One tick of a group: is it a candidate, and where its pair's cursor moves to. */
  method ScanTick(ghost before: seq<Tick>, tick: Tick, elig: map<Pair, seq<int>>, seen: set<Pair>, ptr0: map<Pair, nat>)
    returns (spotted: bool, ptr: map<Pair, nat>)
    requires CursorsRight(before, elig, ptr0)
    requires forall p :: p in elig ==> Ordered((x: int, y: int) => x <= y, elig[p])
    ensures CursorsRight(before + [tick], elig, ptr)
    ensures spotted <==> SpotsTick(before, tick, elig, seen)
  {
    var p := tick.a;
    ptr := ptr0;
    spotted := p !in seen;
    if p in elig {
      CursorMovesIffDue(before, tick, elig, ptr);
      var k := ptr[p];
      ghost var moves := k < |elig[p]| && elig[p][k] <= tick.t;
      hide NoneSince, CursorsRight, Ordered;
      CursorInRange(before, elig, ptr0, p);
      while k < |elig[p]| && elig[p][k] <= tick.t
        invariant ptr0[p] <= k <= |elig[p]|
        invariant forall y :: ptr0[p] <= y < k ==> elig[p][y] <= tick.t
        invariant spotted <==> (p !in seen || k > ptr0[p])
      {
        k := k + 1;
        spotted := true;
      }
      assert forall y :: k <= y < |elig[p]| ==> tick.t < elig[p][y] by {
        RestIsLater(elig[p], k, tick.t);
      }
      CursorsAfterTick(before, tick, elig, ptr0, k);
      ptr := ptr[p := k];
    } else {
      CursorsUntouched(before, tick, elig, ptr);
    }
  }

  lemma CursorInRange(rel: seq<Tick>, elig: map<Pair, seq<int>>, ptr: map<Pair, nat>, p: Pair)
    requires CursorsRight(rel, elig, ptr) && p in elig
    ensures p in ptr && ptr[p] <= |elig[p]|
  {
  }

  lemma RestIsLater(q: seq<int>, k: nat, t: int)
    requires Ordered((x: int, y: int) => x <= y, q) && k <= |q| && (k < |q| ==> t < q[k])
    ensures forall y :: k <= y < |q| ==> t < q[y]
  {
  }

  method ScanGroup(ghost rel: seq<Tick>, group: seq<Tick>, elig: map<Pair, seq<int>>, seen: set<Pair>, ptr0: map<Pair, nat>)
    returns (cand: bool, ptr: map<Pair, nat>)
    requires CursorsRight(rel, elig, ptr0)
    requires forall p :: p in elig ==> Ordered((x: int, y: int) => x <= y, elig[p])
    ensures CursorsRight(rel + group, elig, ptr)
    ensures cand <==> exists x :: SpotsCandidate(rel, group, elig, seen, x)
  {
    hide CursorsRight, SpotsTick;
    cand, ptr := false, ptr0;
    assert rel + group[..0] == rel;
    for x := 0 to |group|
      invariant CursorsRight(rel + group[..x], elig, ptr)
      invariant cand <==> exists y :: y < x && SpotsCandidate(rel, group, elig, seen, y)
    {
      assert rel + group[..x + 1] == rel + group[..x] + [group[x]];
      var spotted;
      spotted, ptr := ScanTick(rel + group[..x], group[x], elig, seen, ptr);
      assert spotted <==> SpotsCandidate(rel, group, elig, seen, x);
      cand := cand || spotted;
    }
    assert group[..|group|] == group;
    assert forall x :: SpotsCandidate(rel, group, elig, seen, x) ==> x < |group|;
  }

  method RememberGroup(ghost rel: seq<Tick>, group: seq<Tick>, last0: map<Pair, (nat, Tick)>, order: nat)
    returns (last: map<Pair, (nat, Tick)>)
    requires LastsRight(rel, last0) && order == |rel|
    ensures LastsRight(rel + group, last)
  {
    last := last0;
    assert rel + group[..0] == rel;
    for x := 0 to |group|
      invariant LastsRight(rel + group[..x], last)
    {
      ghost var before := rel + group[..x];
      assert rel + group[..x + 1] == before + [group[x]];
      last := last[group[x].a := (order + x, group[x])];
      LastsAfterTick(before, group[x], last);
    }
    assert group[..|group|] == group;
  }

  lemma LastsAfterTick(rel: seq<Tick>, tick: Tick, last: map<Pair, (nat, Tick)>)
    requires tick.a in last && last[tick.a] == (|rel|, tick)
    requires forall p :: p in last && p != tick.a ==> LastBefore(rel, |rel|, p, last[p].0) && last[p].1 == rel[last[p].0]
    requires forall j :: 0 <= j < |rel| ==> rel[j].a in last
    ensures LastsRight(rel + [tick], last)
  {
    var all := rel + [tick];
    assert all[|rel|] == tick;
    assert forall k :: 0 <= k < |rel| ==> all[k] == rel[k];
  }

  /** `j` is the index remembered for one of the first `n` pairs. */
  ghost predicate Remembered(last: map<Pair, (nat, Tick)>, pairs: seq<Pair>, n: nat, j: int)
    requires n <= |pairs| && forall p :: p in pairs ==> p in last
  {
    exists m :: 0 <= m < n && last[pairs[m]].0 == j
  }

  lemma RememberedIsLast(rel: seq<Tick>, last: map<Pair, (nat, Tick)>, pairs: seq<Pair>, j: int)
    requires LastsRight(rel, last) && forall p :: p in pairs <==> p in last
    ensures Remembered(last, pairs, |pairs|, j) <==> (0 <= j < |rel| && LastBefore(rel, |rel|, rel[j].a, j))
  {
    if m :| 0 <= m < |pairs| && last[pairs[m]].0 == j {
      assert pairs[m] in pairs;
    }
    if 0 <= j < |rel| && LastBefore(rel, |rel|, rel[j].a, j) {
      assert rel[j].a in pairs;
      var m :| 0 <= m < |pairs| && pairs[m] == rel[j].a;
      assert last[pairs[m]].0 == j;
    }
  }

  /** Add the last tick of every pair seen so far. */
  method KeepLasts(ghost rel: seq<Tick>, last: map<Pair, (nat, Tick)>, keep0: map<nat, Tick>)
    returns (keep: map<nat, Tick>)
    requires LastsRight(rel, last)
    requires forall j :: j in keep0 ==> j < |rel| && keep0[j] == rel[j]
    ensures forall j :: j in keep ==> j < |rel| && keep[j] == rel[j]
    ensures forall j :: j in keep <==> j in keep0 || (0 <= j < |rel| && LastBefore(rel, |rel|, rel[j].a, j))
  {
    keep := keep0;
    var pairs := InOrder(last.Keys);
    for n := 0 to |pairs|
      invariant forall j :: j in keep ==> j < |rel| && keep[j] == rel[j]
      invariant forall j :: j in keep <==> j in keep0 || Remembered(last, pairs, n, j)
    {
      assert pairs[n] in pairs;
      keep := keep[last[pairs[n]].0 := last[pairs[n]].1];
    }
    hide LastBefore, Remembered;
    forall j ensures Remembered(last, pairs, |pairs|, j) <==> (0 <= j < |rel| && LastBefore(rel, |rel|, rel[j].a, j)) {
      RememberedIsLast(rel, last, pairs, j);
    }
  }

  method KeepGroup(ghost rel: seq<Tick>, group: seq<Tick>, order: nat, keep0: map<nat, Tick>)
    returns (keep: map<nat, Tick>)
    requires order == |rel|
    requires forall j :: j in keep0 ==> j < |rel| && keep0[j] == rel[j]
    ensures forall j :: j in keep ==> j < |rel + group| && keep[j] == (rel + group)[j]
    ensures forall j :: j in keep <==> j in keep0 || |rel| <= j < |rel + group|
  {
    keep := keep0;
    ghost var all := rel + group;
    for x := 0 to |group|
      invariant forall j :: j in keep ==> j < |all| && keep[j] == all[j]
      invariant forall j :: j in keep <==> j in keep0 || |rel| <= j < |rel| + x
    {
      keep := keep[order + x := group[x]];
    }
  }

  /** After a group, the kept set is again what the scan so far asks for. */
  lemma KeepAfterGroup(delay: nat, rs: seq<Receipt>, rel: seq<Tick>, group: seq<Tick>, day: int,
                       keep0: map<nat, Tick>, cand: bool, keep: map<nat, Tick>)
    requires NextGroup(rel, group, day) && KeepRight(delay, rs, rel, keep0)
    requires cand <==> CandidateTime(delay, rs, rel + group, group[0].t)
    requires forall j :: j in keep ==> j < |rel + group| && keep[j] == (rel + group)[j]
    requires forall j :: j in keep <==>
               j in keep0
               || (cand && 0 <= j < |rel| && LastBefore(rel, |rel|, rel[j].a, j))
               || (cand && |rel| <= j < |rel + group|)
    ensures KeepRight(delay, rs, rel + group, keep)
  {
    hide KeptSoFar, CandidateTime;
    forall j ensures j in keep <==> KeptSoFar(delay, rs, rel + group, j) {
      if j < 0 {
        KeptInRange(delay, rs, rel + group, j);
      } else if j < |rel| {
        OlderTickKept(delay, rs, rel, group, day, j);
      } else if j < |rel + group| {
        GroupTickKept(delay, rs, rel, group, day, j);
        KeptInRange(delay, rs, rel, j);
      } else {
        KeptInRange(delay, rs, rel + group, j);
        KeptInRange(delay, rs, rel, j);
      }
    }
  }

  lemma KeptInRange(delay: nat, rs: seq<Receipt>, rel: seq<Tick>, j: int)
    ensures KeptSoFar(delay, rs, rel, j) ==> 0 <= j < |rel|
  {
  }

  // ---------------------------------------------------------------- the day

  /** How far the group of equal times that starts at `i` goes. */
  method GroupEnd(rows: seq<Tick>, i: nat) returns (j: nat)
    requires i < |rows| && TicksSorted(rows)
    ensures i < j <= |rows|
    ensures forall k :: i <= k < j ==> rows[k].t == rows[i].t
    ensures forall k :: j <= k < |rows| ==> rows[i].t < rows[k].t
  {
    j := i;
    while j < |rows| && rows[j].t == rows[i].t
      invariant i <= j <= |rows|
      invariant forall k :: i <= k < j ==> rows[k].t == rows[i].t
    {
      j := j + 1;
    }
  }

  /** Everything the scan carries from group to group. */
  datatype Scan = Scan(last: map<Pair, (nat, Tick)>, keep: map<nat, Tick>, seen: set<Pair>, ptr: map<Pair, nat>,
                       order: nat)

  ghost predicate ScanRight(delay: nat, rs: seq<Receipt>, rel: seq<Tick>, elig: map<Pair, seq<int>>, c: Scan)
  {
    && c.order == |rel|
    && LastsRight(rel, c.last)
    && KeepRight(delay, rs, rel, c.keep)
    && (forall p :: p in c.seen <==> exists j :: 0 <= j < |rel| && rel[j].a == p)
    && CursorsRight(rel, elig, c.ptr)
  }

  method AddGroup(delay: nat, ghost rs: seq<Receipt>, pairs: set<Pair>, ghost rel: seq<Tick>, group: seq<Tick>, day: int,
                  elig: map<Pair, seq<int>>, c0: Scan) returns (c: Scan)
    requires ScanRight(delay, rs, rel, elig, c0)
    requires NextGroup(rel, group, day) && EligibleTimes(elig, delay, rs, pairs, day)
    requires forall k :: 0 <= k < |group| ==> group[k].a in pairs
    ensures ScanRight(delay, rs, rel + group, elig, c)
  {
    hide CandidateTime, SpotsCandidate, CursorsRight, LastBefore, KeptSoFar, LastsRight, NoneSince, Due;
    var cand, ptr := ScanGroup(rel, group, elig, c0.seen, c0.ptr);
    if x :| SpotsCandidate(rel, group, elig, c0.seen, x) {
      SpottedIsCandidate(delay, rs, pairs, rel, group, day, elig, c0.seen, x);
    }
    ghost var isCandidate := CandidateTime(delay, rs, rel + group, group[0].t);
    if isCandidate {
      var x := CandidateIsSpotted(delay, rs, pairs, rel, group, day, elig, c0.seen);
    }
    var keep := c0.keep;
    if cand {
      keep := KeepLasts(rel, c0.last, keep);
      keep := KeepGroup(rel, group, c0.order, keep);
    }
    KeepAfterGroup(delay, rs, rel, group, day, c0.keep, cand, keep);
    var last := RememberGroup(rel, group, c0.last, c0.order);
    var seen := c0.seen + (set t <- group :: t.a);
    c := Scan(last, keep, seen, ptr, c0.order + |group|);
    forall p ensures p in seen <==> exists j :: 0 <= j < |rel + group| && (rel + group)[j].a == p {
      SeenAfterGroup(rel, group, c0.seen, p);
    }
  }

  lemma SeenAfterGroup(rel: seq<Tick>, group: seq<Tick>, seen: set<Pair>, p: Pair)
    requires forall x :: x in seen <==> exists j :: 0 <= j < |rel| && rel[j].a == x
    ensures p in seen + (set t <- group :: t.a) <==> exists j :: 0 <= j < |rel + group| && (rel + group)[j].a == p
  {
    var all := rel + group;
    if p in seen {
      var j :| 0 <= j < |rel| && rel[j].a == p;
      assert all[j].a == p;
    }
    if t :| t in group && t.a == p {
      var k :| 0 <= k < |group| && group[k] == t;
      assert all[|rel| + k].a == p;
    }
    if j :| 0 <= j < |all| && all[j].a == p {
      if j >= |rel| {
        assert all[j] == group[j - |rel|];
      } else {
        assert rel[j].a == p;
      }
    }
  }

  function MissingWindows(read: Reader, w: int, stop: int): seq<int>
    decreases stop - w
  {
    if w >= stop then []
    else (if read(w).None? then [w] else []) + MissingWindows(read, w + WINDOW_MS, stop)
  }

  lemma EmptyScan(delay: nat, rs: seq<Receipt>, elig: map<Pair, seq<int>>, c: Scan)
    requires c.last == map[] && c.keep == map[] && c.seen == {} && c.order == 0
    requires c.ptr.Keys == elig.Keys && forall p :: p in c.ptr ==> c.ptr[p] == 0
    ensures ScanRight(delay, rs, [], elig, c)
  {
    forall j ensures !KeptSoFar(delay, rs, [], j) {
    }
  }

  /** The rows of one window, group after group. */
  method AddRows(delay: nat, ghost rs: seq<Receipt>, pairs: set<Pair>, ghost rel: seq<Tick>, rows: seq<Tick>, day: int,
                 elig: map<Pair, seq<int>>, c0: Scan) returns (c: Scan)
    requires ScanRight(delay, rs, rel, elig, c0) && EligibleTimes(elig, delay, rs, pairs, day)
    requires TicksSorted(rows) && day % DAY_MS == 0
    requires forall k :: 0 <= k < |rows| ==> rows[k].a in pairs && day <= rows[k].t < day + DAY_MS
    requires forall k :: 0 <= k < |rel| ==> day <= rel[k].t < day + DAY_MS
    requires forall k, l :: 0 <= k < |rel| && 0 <= l < |rows| ==> rel[k].t < rows[l].t
    ensures ScanRight(delay, rs, rel + rows, elig, c)
  {
    hide ScanRight, EligibleTimes;
    c := c0;
    var i := 0;
    assert rel + rows[..0] == rel;
    while i < |rows|
      invariant i <= |rows|
      invariant forall k, l :: 0 <= k < i <= l < |rows| ==> rows[k].t < rows[l].t
      invariant ScanRight(delay, rs, rel + rows[..i], elig, c)
    {
      var j := GroupEnd(rows, i);
      var group := rows[i..j];
      ghost var before := rel + rows[..i];
      assert before + group == rel + rows[..j];
      assert NextGroup(before, group, day) by {
        forall k | 0 <= k < |before| ensures before[k].t < group[0].t && DayStart(before[k].t) == day {
          if k >= |rel| {
            assert before[k] == rows[k - |rel|];
          }
        }
        forall k | 0 <= k < |group| ensures group[k].t == group[0].t {
          assert group[k] == rows[i + k];
        }
      }
      c := AddGroup(delay, rs, pairs, before, group, day, elig, c);
      i := j;
    }
    assert rows[..|rows|] == rows;
  }

  /** The kept ticks in order. */
  method Emit(ghost rel: seq<Tick>, keep: map<nat, Tick>) returns (out: seq<Tick>)
    requires forall j :: j in keep ==> j < |rel| && keep[j] == rel[j]
    ensures out == Sub(rel, keep.Keys, 0)
  {
    hide InOrder, Picked;
    var o := InOrder(keep.Keys);
    InOrderWithin(keep.Keys, |rel|);
    out := [];
    assert o[0..] == o;
    for n := 0 to |o|
      invariant out + Picked(rel, o[n..]) == Picked(rel, o)
    {
      assert o[n] in o;
      PickedStep(rel, o, n);
      out := out + [keep[o[n]]];
    }
    PickedNone(rel, o);
    PickInOrder(rel, keep.Keys, 0);
  }

  lemma InsideDay(t: int, day: int)
    requires day % DAY_MS == 0 && day <= t < day + DAY_MS
    ensures DayStart(t) == day
  {
  }

  lemma ScanIsWanted(delay: nat, rs: seq<Receipt>, rel: seq<Tick>, day: int, keep0: map<nat, Tick>, keep: map<nat, Tick>)
    requires KeepRight(delay, rs, rel, keep0)
    requires day % DAY_MS == 0 && forall k :: 0 <= k < |rel| ==> day <= rel[k].t < day + DAY_MS
    requires forall j :: j in keep <==> j in keep0 || (0 <= j < |rel| && LastBefore(rel, |rel|, rel[j].a, j))
    ensures Sub(rel, keep.Keys, 0) == ThinStream(delay, rs, rel)
  {
    hide CandidateTime, MarksGroup, DayStart;
    forall k | 0 <= k < |rel| ensures DayStart(rel[k].t) == day {
      InsideDay(rel[k].t, day);
    }
    forall j: nat ensures j in keep <==> j in WantedIndices(delay, rs, rel) {
      if j < |rel| {
        assert LastOfDay(rel, j) <==> LastBefore(rel, |rel|, rel[j].a, j);
      }
    }
    SubIgnores(rel, keep.Keys, WantedIndices(delay, rs, rel), 0);
  }

  /** Where the pass over a day stops reading. */
  function StopOf(day: int, until: Option<int>): int
  {
    if until.None? || day + DAY_MS <= until.value then day + DAY_MS else until.value
  }

  lemma StreamStep(read: Reader, pairs: set<Pair>, day: int, w: int, stop: int, rel: seq<Tick>, rows: seq<Tick>)
    requires w < stop && rows == Filter(Relevant(pairs, day), WindowTicks(read, w))
    ensures rel + rows + RelevantStream(read, pairs, day, w + WINDOW_MS, stop)
            == rel + RelevantStream(read, pairs, day, w, stop)
  {
    hide WindowTicks, Filter;
    FilterConcat(Relevant(pairs, day), WindowTicks(read, w), FullStream(read, w + WINDOW_MS, stop));
    assert FullStream(read, w, stop) == WindowTicks(read, w) + FullStream(read, w + WINDOW_MS, stop);
    hide FullStream;
    assert rel + rows + RelevantStream(read, pairs, day, w + WINDOW_MS, stop)
           == rel + (rows + RelevantStream(read, pairs, day, w + WINDOW_MS, stop));
  }

  lemma StreamDone(read: Reader, pairs: set<Pair>, day: int, w: int, stop: int, rel: seq<Tick>)
    requires w >= stop
    ensures rel + RelevantStream(read, pairs, day, w, stop) == rel
  {
  }

  lemma RowsFollow(rel: seq<Tick>, rows: seq<Tick>, day: int, w: int)
    requires forall k :: 0 <= k < |rel| ==> day <= rel[k].t < w && rel[k].t < day + DAY_MS
    requires forall k :: 0 <= k < |rows| ==> day <= rows[k].t < day + DAY_MS && w <= rows[k].t < w + WINDOW_MS
    ensures forall k, l :: 0 <= k < |rel| && 0 <= l < |rows| ==> rel[k].t < rows[l].t
    ensures forall k :: 0 <= k < |rel + rows| ==>
              day <= (rel + rows)[k].t < w + WINDOW_MS && (rel + rows)[k].t < day + DAY_MS
  {
  }

  /** The day's windows in one go: exactly the wanted ticks of the day's pairs, and the windows that
      were missing. `until` stops the pass early. */
  method ThinDay(day: int, rs: seq<Receipt>, pairs: set<Pair>, read: Reader, delay: nat, until: Option<int>)
    returns (ticks: seq<Tick>, missing: seq<int>)
    requires day % DAY_MS == 0 && WellSharded(read)
    ensures ticks == ThinStream(delay, rs, RelevantStream(read, pairs, day, day, StopOf(day, until)))
    ensures missing == MissingWindows(read, day, StopOf(day, until))
  {
    hide ScanRight, EligibleTimes, WellSharded, ThinStream, WindowTicks, RelevantStream, Filter, Sort, StopOf,
         WantedIndices;
    var stop := StopOf(day, until);
    var elig := CollectEligible(delay, rs, pairs, day);
    var c := Scan(map[], map[], {}, map p | p in elig :: 0, 0);
    EmptyScan(delay, rs, elig, c);
    missing := [];
    ghost var rel: seq<Tick> := [];
    var w := day;
    while w < stop
      invariant day <= w
      invariant missing + MissingWindows(read, w, stop) == MissingWindows(read, day, stop)
      invariant rel + RelevantStream(read, pairs, day, w, stop) == RelevantStream(read, pairs, day, day, stop)
      invariant forall k :: 0 <= k < |rel| ==> day <= rel[k].t < w && rel[k].t < day + DAY_MS
      invariant ScanRight(delay, rs, rel, elig, c)
      decreases stop - w
    {
      ghost var next := Filter(Relevant(pairs, day), WindowTicks(read, w));
      StreamStep(read, pairs, day, w, stop, rel, next);
      RowsOfWindow(read, w, pairs, day);
      RowsFollow(rel, next, day, w);
      if read(w).None? {
        NothingRead(read, w, pairs, day);
        missing := missing + [w];
        assert rel + next == rel;
      } else {
        var rows := RelevantRows(read(w).value, pairs, day);
        assert rows == next by {
          RowsRead(read, w, pairs, day, rows);
        }
        c := AddRows(delay, rs, pairs, rel, rows, day, elig, c);
      }
      rel := rel + next;
      w := w + WINDOW_MS;
    }
    StreamDone(read, pairs, day, w, stop, rel);
    ScanFacts(delay, rs, rel, elig, c);
    var keep := KeepLasts(rel, c.last, c.keep);
    ScanIsWanted(delay, rs, rel, day, c.keep, keep);
    ticks := Emit(rel, keep);
  }

  lemma NothingRead(read: Reader, w: int, pairs: set<Pair>, day: int)
    requires read(w).None?
    ensures Filter(Relevant(pairs, day), WindowTicks(read, w)) == []
  {
  }

  lemma RowsRead(read: Reader, w: int, pairs: set<Pair>, day: int, rows: seq<Tick>)
    requires read(w).Some? && rows == Filter(Relevant(pairs, day), Sort(TickLeq, Rows(read(w).value)))
    ensures rows == Filter(Relevant(pairs, day), WindowTicks(read, w))
  {
  }

  lemma ScanFacts(delay: nat, rs: seq<Receipt>, rel: seq<Tick>, elig: map<Pair, seq<int>>, c: Scan)
    requires ScanRight(delay, rs, rel, elig, c)
    ensures LastsRight(rel, c.last) && KeepRight(delay, rs, rel, c.keep)
    ensures forall j :: j in c.keep ==> j < |rel| && c.keep[j] == rel[j]
  {
  }

  lemma RowsOfWindow(read: Reader, w: int, pairs: set<Pair>, day: int)
    requires WellSharded(read)
    ensures var rows := Filter(Relevant(pairs, day), WindowTicks(read, w));
            && TicksSorted(rows)
            && forall k :: 0 <= k < |rows| ==>
                 rows[k].a in pairs && day <= rows[k].t < day + DAY_MS && w <= rows[k].t < w + WINDOW_MS
  {
    var all := WindowTicks(read, w);
    var rows := Filter(Relevant(pairs, day), all);
    WindowBounds(read, w);
    FilterOrdered(TickLeq, Relevant(pairs, day), all);
    FilterElements(Relevant(pairs, day), all);
    forall k | 0 <= k < |rows|
      ensures rows[k].a in pairs && day <= rows[k].t < day + DAY_MS && w <= rows[k].t < w + WINDOW_MS
    {
      assert rows[k] in rows && rows[k] in all;
    }
  }
}
