/**
 Which ticks the two thinning stages keep (sn89_signals/agent_books_io.py), as predicates over a tick
 stream, and why each stage keeps every tick a replay reads.
 */
module TickThinning {
  import opened AgentBooks
  import opened BookRules
  import opened TickSimulation

  // ---------------------------------------------------------------- stage 0: pairs touched by the day's end

  /** Some receipt received before the end of the tick's UTC day touches its pair. */
  ghost predicate TouchedByDayEnd(env: Env, all: seq<Receipt>, tick: Tick)
  {
    exists r :: r in all && Touches(env, r, tick.a) && r.tRecv < DayStart(tick.t) + DAY_MS
  }

  ghost function TouchedIndices(env: Env, all: seq<Receipt>, tk: seq<Tick>): set<int>
  {
    set i | 0 <= i < |tk| && TouchedByDayEnd(env, all, tk[i])
  }

  lemma EligibleTickIsTouched(env: Env, all: seq<Receipt>, r: Receipt, tick: Tick)
    requires r in all && Touches(env, r, tick.a) && EligibleAt(env, r) <= tick.t
    ensures TouchedByDayEnd(env, all, tick)
  {
    assert r.tRecv < DayStart(tick.t) + DAY_MS;
  }

  lemma TouchedKeepsNeeded(env: Env, all: seq<Receipt>, rs: seq<Receipt>, tk: seq<Tick>, end: int)
    requires TicksSorted(tk) && forall r :: r in rs ==> r in all
    ensures KeepsNeeded(env, rs, tk, end, TouchedIndices(env, all, tk))
  {
    hide TouchedByDayEnd, Touches, NoneSince;
    var keep := TouchedIndices(env, all, tk);
    forall c, p, j | 0 <= c <= |tk| && LastBefore(tk, c, p, j) && Live(env, rs, tk, c, p) ensures j in keep {
      var k, r :| 0 <= k < c && tk[k].a == p && r in rs && Touches(env, r, p) && EligibleAt(env, r) <= tk[k].t;
      assert k <= j && tk[k].t <= tk[j].t;
      EligibleTickIsTouched(env, all, r, tk[j]);
    }
    forall i | Candidate(env, rs, tk, i) ensures i in keep {
      var r :| r in rs && Touches(env, r, tk[i].a) && EligibleAt(env, r) <= tk[i].t
               && NoneSince(tk, i, tk[i].a, EligibleAt(env, r));
      EligibleTickIsTouched(env, all, r, tk[i]);
    }
  }

  // ---------------------------------------------------------------- stage 1: the union thin of each day

  ghost predicate FirstOfDay(tk: seq<Tick>, i: int)
  {
    0 <= i < |tk| && forall k :: 0 <= k < i && DayStart(tk[k].t) == DayStart(tk[i].t) ==> tk[k].a != tk[i].a
  }

  ghost predicate LastOfDay(tk: seq<Tick>, j: int)
  {
    0 <= j < |tk| && forall k :: j < k < |tk| && DayStart(tk[k].t) == DayStart(tk[j].t) ==> tk[k].a != tk[j].a
  }

  /** A receipt naming `pair` becomes eligible at `e`. */
  ghost predicate Due(delay: nat, rs: seq<Receipt>, pair: Pair, e: int)
  {
    exists r :: r in rs && pair in Keys(r) && r.tRecv + delay == e
  }

  ghost predicate FirstSince(tk: seq<Tick>, i: int, e: int)
  {
    0 <= i < |tk| && e <= tk[i].t && NoneSince(tk, i, tk[i].a, e)
  }

  /** The tick is the first of its pair in the day, or since an eligible time inside the day. */
  ghost predicate FillCandidate(delay: nat, rs: seq<Receipt>, tk: seq<Tick>, i: int)
  {
    0 <= i < |tk| &&
    (FirstOfDay(tk, i) ||
     exists e :: Due(delay, rs, tk[i].a, e) && DayStart(tk[i].t) <= e && FirstSince(tk, i, e))
  }

  /** Some tick of the group at time `t` is a fill candidate. */
  ghost predicate CandidateTime(delay: nat, rs: seq<Receipt>, tk: seq<Tick>, t: int)
  {
    exists i :: 0 <= i < |tk| && tk[i].t == t && FillCandidate(delay, rs, tk, i)
  }

  /** The last tick of its pair before the group at time `t`. */
  ghost predicate LastSeenAt(tk: seq<Tick>, j: int, t: int)
  {
    0 <= j < |tk| && tk[j].t < t && forall k :: j < k < |tk| && tk[k].a == tk[j].a ==> t <= tk[k].t
  }

  ghost predicate MarksGroup(delay: nat, rs: seq<Receipt>, tk: seq<Tick>, j: int, i: int)
  {
    0 <= i < |tk| && FillCandidate(delay, rs, tk, i) && 0 <= j < |tk|
    && DayStart(tk[i].t) == DayStart(tk[j].t) && LastSeenAt(tk, j, tk[i].t)
  }

  /** What the union thin keeps. */
  ghost predicate Wanted(delay: nat, rs: seq<Receipt>, tk: seq<Tick>, j: int)
  {
    0 <= j < |tk| &&
    (LastOfDay(tk, j) || CandidateTime(delay, rs, tk, tk[j].t) || exists i :: MarksGroup(delay, rs, tk, j, i))
  }

  ghost function WantedIndices(delay: nat, rs: seq<Receipt>, tk: seq<Tick>): set<int>
  {
    set j | 0 <= j < |tk| && Wanted(delay, rs, tk, j)
  }

  lemma CandidateIsFillCandidate(env: Env, all: seq<Receipt>, rs: seq<Receipt>, tk: seq<Tick>, i: int)
    requires TicksSorted(tk) && forall r :: r in rs ==> r in all
    requires Candidate(env, rs, tk, i)
    ensures FillCandidate(env.rules.fillDelay, all, tk, i)
  {
    var r :| r in rs && Touches(env, r, tk[i].a) && EligibleAt(env, r) <= tk[i].t
             && NoneSince(tk, i, tk[i].a, EligibleAt(env, r));
    var e := EligibleAt(env, r);
    if DayStart(tk[i].t) <= e {
      assert Due(env.rules.fillDelay, all, tk[i].a, e);
      assert FirstSince(tk, i, e);
    } else {
      assert FirstOfDay(tk, i);
    }
  }

  lemma SameDayAs(t: int, u: int)
    requires t <= u && DayStart(t) != DayStart(u)
    ensures DayStart(t) + DAY_MS <= u
  {
  }

  /** The last tick of a pair before a candidate is kept. */
  lemma MarkBeforeCandidateWanted(env: Env, all: seq<Receipt>, tk: seq<Tick>, i: int, p: Pair, j: int)
    requires TicksSorted(tk) && 0 <= i < |tk| && FillCandidate(env.rules.fillDelay, all, tk, i) && LastBefore(tk, i, p, j)
    ensures Wanted(env.rules.fillDelay, all, tk, j)
  {
    hide FillCandidate;
    if DayStart(tk[j].t) == DayStart(tk[i].t) {
      if tk[j].t < tk[i].t {
        assert MarksGroup(env.rules.fillDelay, all, tk, j, i);
      } else {
        assert tk[j].t == tk[i].t;
      }
    } else {
      SameDayAs(tk[j].t, tk[i].t);
      assert LastOfDay(tk, j);
    }
  }

  /** The last tick of a pair before a day end is kept. */
  lemma MarkBeforeMidnightWanted(env: Env, all: seq<Receipt>, tk: seq<Tick>, c: int, t: int, p: Pair, j: int)
    requires TicksSorted(tk) && CutAt(tk, c, t) && t % DAY_MS == 0 && LastBefore(tk, c, p, j)
    ensures LastOfDay(tk, j)
  {
    forall k | j < k < |tk| && DayStart(tk[k].t) == DayStart(tk[j].t) ensures tk[k].a != tk[j].a {
      assert tk[k].t < t by {
        assert DayStart(tk[j].t) + DAY_MS <= t;
      }
    }
  }

  lemma CutSeparates(tk: seq<Tick>, c: int, t: int)
    requires CutAt(tk, c, t)
    ensures c < |tk| ==> t <= tk[c].t
  {
  }

  /** When no tick of the stream is past the end of the replay, the union thin keeps what any account reads. */
  lemma WantedKeepsNeeded(env: Env, all: seq<Receipt>, rs: seq<Receipt>, tk: seq<Tick>, end: int)
    requires TicksSorted(tk) && (forall r :: r in rs ==> r in all)
    requires forall k :: 0 <= k < |tk| ==> tk[k].t <= end
    ensures KeepsNeeded(env, rs, tk, end, WantedIndices(env.rules.fillDelay, all, tk))
  {
    hide FillCandidate, Wanted, Candidate, Live;
    var keep := WantedIndices(env.rules.fillDelay, all, tk);
    forall i | Candidate(env, rs, tk, i) && 0 <= i < |tk| ensures i in keep && KeepsMarks(env, rs, tk, i, keep) {
      CandidateIsFillCandidate(env, all, rs, tk, i);
      CandidateIsWanted(env.rules.fillDelay, all, tk, i);
      forall p, j | LastBefore(tk, i, p, j) && Live(env, rs, tk, i, p) ensures j in keep {
        MarkBeforeCandidateWanted(env, all, tk, i, p, j);
      }
    }
    forall t, c | ReadTime(env, end, t) && CutAt(tk, c, t) ensures KeepsMarks(env, rs, tk, c, keep) {
      forall p, j | LastBefore(tk, c, p, j) && Live(env, rs, tk, c, p) ensures j in keep {
        if t == end + 1 {
          CutSeparates(tk, c, t);
          assert c == |tk|;
        } else {
          MarkBeforeMidnightWanted(env, all, tk, c, t, p, j);
        }
        LastIsWanted(env.rules.fillDelay, all, tk, j);
      }
    }
    CandidatesAreIndices(env, rs, tk);
  }

  lemma CandidatesAreIndices(env: Env, rs: seq<Receipt>, tk: seq<Tick>)
    ensures forall i :: Candidate(env, rs, tk, i) ==> 0 <= i < |tk|
  {
  }

  lemma CandidateIsWanted(delay: nat, all: seq<Receipt>, tk: seq<Tick>, i: int)
    requires FillCandidate(delay, all, tk, i)
    ensures Wanted(delay, all, tk, i)
  {
    assert 0 <= i < |tk| && tk[i].t == tk[i].t;
  }

  lemma LastIsWanted(delay: nat, all: seq<Receipt>, tk: seq<Tick>, j: int)
    requires LastOfDay(tk, j)
    ensures Wanted(delay, all, tk, j)
  {
  }

  // ---------------------------------------------------------------- stage 2: one book's slice

  /** Some receipt of the book meets its first eligible tick at time `f`. */
  ghost predicate FillTime(delay: nat, rs: seq<Receipt>, tk: seq<Tick>, end: int, f: int)
  {
    f <= end && exists r, i :: r in rs && 0 <= i < |tk| && tk[i].t == f && tk[i].a in Keys(r)
                               && FirstSince(tk, i, r.tRecv + delay)
  }

  /** The tick is at the last time its pair ticks before `t`. */
  ghost predicate AtLastTimeBefore(tk: seq<Tick>, j: int, t: int)
  {
    0 <= j < |tk| && tk[j].t < t && forall k :: 0 <= k < |tk| && tk[k].a == tk[j].a && tk[k].t < t ==> tk[k].t <= tk[j].t
  }

  /** The instants the book's marks are read at: its fill times, the day ends and the end of the replay. */
  ghost predicate MarkTime(env: Env, rs: seq<Receipt>, tk: seq<Tick>, end: int, t: int)
  {
    FillTime(env.rules.fillDelay, rs, tk, end, t) || ReadTime(env, end, t)
  }

  ghost predicate TouchedBy(env: Env, rs: seq<Receipt>, pair: Pair)
  {
    exists r :: r in rs && Touches(env, r, pair)
  }

  /** What one book's slice keeps of the union thin. */
  ghost predicate Selected(env: Env, rs: seq<Receipt>, tk: seq<Tick>, end: int, j: int)
  {
    0 <= j < |tk| && TouchedBy(env, rs, tk[j].a) &&
    (FillTime(env.rules.fillDelay, rs, tk, end, tk[j].t) ||
     exists t :: MarkTime(env, rs, tk, end, t) && AtLastTimeBefore(tk, j, t))
  }

  ghost function SelectedIndices(env: Env, rs: seq<Receipt>, tk: seq<Tick>, end: int): set<int>
  {
    set j | 0 <= j < |tk| && Selected(env, rs, tk, end, j)
  }

  lemma LiveIsTouched(env: Env, rs: seq<Receipt>, tk: seq<Tick>, c: int, p: Pair)
    requires c <= |tk| && Live(env, rs, tk, c, p)
    ensures TouchedBy(env, rs, p)
  {
  }

  lemma CandidateIsFillTime(env: Env, rs: seq<Receipt>, tk: seq<Tick>, end: int, i: int)
    requires Candidate(env, rs, tk, i) && tk[i].t <= end
    ensures FillTime(env.rules.fillDelay, rs, tk, end, tk[i].t) && TouchedBy(env, rs, tk[i].a)
  {
    var r :| r in rs && Touches(env, r, tk[i].a) && EligibleAt(env, r) <= tk[i].t
             && NoneSince(tk, i, tk[i].a, EligibleAt(env, r));
    assert FirstSince(tk, i, r.tRecv + env.rules.fillDelay);
  }

  lemma LastBeforeIsAtLastTime(tk: seq<Tick>, c: int, t: int, p: Pair, j: int)
    requires TicksSorted(tk) && LastBefore(tk, c, p, j) && tk[j].t < t && (forall k :: c <= k < |tk| ==> t <= tk[k].t)
    ensures AtLastTimeBefore(tk, j, t)
  {
    forall k | 0 <= k < |tk| && tk[k].a == p && tk[k].t < t ensures tk[k].t <= tk[j].t {
      assert k < c;
      assert k <= j;
    }
  }

  /** The slice keeps what its own book reads of any stream it is cut from. */
  lemma SelectedKeepsNeeded(env: Env, rs: seq<Receipt>, tk: seq<Tick>, end: int)
    requires TicksSorted(tk)
    ensures KeepsNeeded(env, rs, tk, end, SelectedIndices(env, rs, tk, end))
  {
    hide FillTime, TouchedBy, Candidate, Live, AtLastTimeBefore, ReadTime;
    var keep := SelectedIndices(env, rs, tk, end);
    CandidatesAreIndices(env, rs, tk);
    forall i | Candidate(env, rs, tk, i) && 0 <= i < |tk| && tk[i].t <= end
      ensures i in keep && KeepsMarks(env, rs, tk, i, keep)
    {
      CandidateIsFillTime(env, rs, tk, end, i);
      forall p, j | LastBefore(tk, i, p, j) && Live(env, rs, tk, i, p) ensures j in keep {
        LiveIsTouched(env, rs, tk, i, p);
        if tk[j].t < tk[i].t {
          LastBeforeIsAtLastTime(tk, i, tk[i].t, p, j);
          assert MarkTime(env, rs, tk, end, tk[i].t);
        } else {
          assert tk[j].t == tk[i].t;
        }
      }
    }
    forall t, c | ReadTime(env, end, t) && CutAt(tk, c, t) ensures KeepsMarks(env, rs, tk, c, keep) {
      forall p, j | LastBefore(tk, c, p, j) && Live(env, rs, tk, c, p) ensures j in keep {
        LiveIsTouched(env, rs, tk, c, p);
        LastBeforeIsAtLastTime(tk, c, t, p, j);
        assert MarkTime(env, rs, tk, end, t);
      }
    }
  }

  // ---------------------------------------------------------------- the three stages together

  ghost function TouchedStream(env: Env, all: seq<Receipt>, tk: seq<Tick>): seq<Tick>
  {
    Sub(tk, TouchedIndices(env, all, tk), 0)
  }

  ghost function ThinStream(delay: nat, all: seq<Receipt>, tk: seq<Tick>): seq<Tick>
  {
    Sub(tk, WantedIndices(delay, all, tk), 0)
  }

  ghost function SliceStream(env: Env, rs: seq<Receipt>, tk: seq<Tick>, end: int): seq<Tick>
  {
    Sub(tk, SelectedIndices(env, rs, tk, end), 0)
  }

  lemma SubAfterStart(tk: seq<Tick>, keep: set<int>, start: int, end: int)
    requires forall k :: 0 <= k < |tk| ==> start <= tk[k].t <= end
    ensures var s := Sub(tk, keep, 0); forall k :: 0 <= k < |s| ==> start <= s[k].t <= end
  {
    var s := Sub(tk, keep, 0);
    forall k | 0 <= k < |s| ensures start <= s[k].t <= end {
      var j := SubElements(tk, keep, 0, k);
    }
  }

  lemma NoTickBeforeStart(env: Env, rs: seq<Receipt>, tk: seq<Tick>)
    requires forall k :: 0 <= k < |tk| ==> env.start <= tk[k].t
    ensures NoEarlyCandidate(env, rs, tk)
  {
  }

  /** Replaying a book over its slice of the union thin gives the same result as replaying it over the full
      stream, when the stream starts with the replay and ends with it. */
  lemma ThinnedReplayIsExact(env: Env, all: seq<Receipt>, rs: seq<Receipt>, tk: seq<Tick>, end: int)
    requires TicksSorted(tk) && ReceiptsSorted(rs) && (forall r :: r in rs ==> r in all)
    requires forall k :: 0 <= k < |tk| ==> env.start <= tk[k].t <= end
    ensures var touched := TouchedStream(env, all, tk);
            var thin := ThinStream(env.rules.fillDelay, all, touched);
            ResultOf(Run(env, rs, SliceStream(env, rs, thin, end), end)) == ResultOf(Run(env, rs, tk, end))
  {
    hide ResultOf, Run, KeepsNeeded, NoEarlyCandidate, TouchedIndices, WantedIndices, SelectedIndices;
    NoTickBeforeStart(env, rs, tk);
    TouchedKeepsNeeded(env, all, rs, tk, end);
    SubStreamIsExact(env, rs, tk, TouchedIndices(env, all, tk), end);
    var touched := TouchedStream(env, all, tk);
    SubSorted(tk, TouchedIndices(env, all, tk), 0);
    SubAfterStart(tk, TouchedIndices(env, all, tk), env.start, end);
    NoTickBeforeStart(env, rs, touched);
    WantedKeepsNeeded(env, all, rs, touched, end);
    SubStreamIsExact(env, rs, touched, WantedIndices(env.rules.fillDelay, all, touched), end);
    var thin := ThinStream(env.rules.fillDelay, all, touched);
    SubSorted(touched, WantedIndices(env.rules.fillDelay, all, touched), 0);
    SubAfterStart(touched, WantedIndices(env.rules.fillDelay, all, touched), env.start, end);
    NoTickBeforeStart(env, rs, thin);
    SelectedKeepsNeeded(env, rs, thin, end);
    SubStreamIsExact(env, rs, thin, SelectedIndices(env, rs, thin, end), end);
  }
}
