/**
 Which receipts a replay takes (sn89_signals/agent_books.py:126-160, 335-358, 446-475), in terms of the receipt and the
 targets in force: exactly those the written rules allow, and a refusal names the first rule that is broken.
 */
module BookIntake {
  import opened Wrappers
  import opened Sums
  import opened AgentBooks
  import opened BookRules
  import opened BookFills
  import opened TickSimulation

  // ---------------------------------------------------------------- one entry

  /** A finite leverage within the pair's cap, on a listed pair of a class that is not excluded. */
  predicate EntryOk(env: Env, e: (Pair, Lev))
  {
    e.0 in env.universe && env.universe[e.0] !in env.rules.excluded && e.1.Lev?
    && -env.rules.perPairCap <= e.1.v <= env.rules.perPairCap
  }

  /** The rule an entry breaks; of several, the first in this order. */
  predicate Breaks(env: Env, e: (Pair, Lev), why: Reason)
  {
    || (e.0 !in env.universe && why == UnknownPair(e.0))
    || (e.0 in env.universe && env.universe[e.0] in env.rules.excluded && why == ExcludedClass(e.0))
    || (e.0 in env.universe && env.universe[e.0] !in env.rules.excluded
        && ((e.1.NotALeverage? && why == BadLev(e.0))
            || (e.1.Lev? && !(-env.rules.perPairCap <= e.1.v <= env.rules.perPairCap) && why == PairCap(e.0))))
  }

  /** Entry `k` is the first that breaks a rule. */
  ghost predicate FirstToBreak(env: Env, es: seq<(Pair, Lev)>, k: nat, why: Reason)
  {
    k < |es| && Breaks(env, es[k], why) && forall j :: 0 <= j < k ==> EntryOk(env, es[j])
  }

  lemma {:induction false} FirstBadIs(env: Env, es: seq<(Pair, Lev)>)
    ensures FirstBadEntry(env, es).None? <==> forall e :: e in es ==> EntryOk(env, e)
    ensures FirstBadEntry(env, es).Some? ==> exists k: nat :: FirstToBreak(env, es, k, FirstBadEntry(env, es).value)
    decreases |es|
  {
    if es != [] {
      FirstBadIs(env, es[1..]);
      assert forall e :: e in es <==> e == es[0] || e in es[1..];
      var why := FirstBadEntry(env, es);
      if !EntryOk(env, es[0]) {
        assert FirstToBreak(env, es, 0, why.value);
      } else if why.Some? {
        var k: nat :| FirstToBreak(env, es[1..], k, why.value);
        assert forall j :: 0 < j < k + 1 ==> es[j] == es[1..][j - 1];
        assert FirstToBreak(env, es, k + 1, why.value);
      }
    }
  }

  // ---------------------------------------------------------------- the targets a receipt asks for

  predicate Names(r: Receipt, p: Pair)
  {
    r.targets.Dict? && exists k :: 0 <= k < |r.targets.entries| && r.targets.entries[k].0 == p && r.targets.entries[k].1.Lev?
  }

  /** The target of a pair once the receipt is taken: its own where it names the pair, else the one in force. */
  ghost function Asked(r: Receipt, declared: map<Pair, real>, p: Pair): real
  {
    if Names(r, p) then
      var k :| 0 <= k < |r.targets.entries| && r.targets.entries[k].0 == p && r.targets.entries[k].1.Lev?;
      r.targets.entries[k].1.v
    else Get(declared, p)
  }

  lemma {:induction false} AsMapNames(es: seq<(Pair, Lev)>, p: Pair)
    ensures p in AsMap(es) <==> exists k :: 0 <= k < |es| && es[k].0 == p && es[k].1.Lev?
    decreases |es|
  {
    if es != [] {
      AsMapNames(es[..|es| - 1], p);
      assert es == es[..|es| - 1] + [es[|es| - 1]];
    }
  }

  lemma AskedIs(r: Receipt, declared: map<Pair, real>, p: Pair)
    ensures Asked(r, declared, p) == Get(declared + TargetsOf(r), p)
    ensures Names(r, p) <==> p in TargetsOf(r)
  {
    if r.targets.Dict? {
      AsMapNames(r.targets.entries, p);
      if p in TargetsOf(r) {
        MapIsListed(r.targets.entries, p);
      }
    }
  }

  ghost function AskedSize(r: Receipt, declared: map<Pair, real>): Pair -> real
  {
    (p: Pair) => if Asked(r, declared, p) < 0.0 then -Asked(r, declared, p) else Asked(r, declared, p)
  }

  /** The pairs in force and named. */
  function PairsOf(r: Receipt, declared: map<Pair, real>): set<Pair>
  {
    declared.Keys + Keys(r)
  }

  lemma {:induction false} AsMapWithin(es: seq<(Pair, Lev)>)
    ensures AsMap(es).Keys <= set e <- es :: e.0
    decreases |es|
  {
    if es != [] {
      AsMapWithin(es[..|es| - 1]);
      assert es == es[..|es| - 1] + [es[|es| - 1]];
    }
  }

  lemma GrossIs(r: Receipt, declared: map<Pair, real>)
    ensures GrossOf(declared + TargetsOf(r)) == Sum(PairsOf(r, declared), AskedSize(r, declared))
  {
    var m := declared + TargetsOf(r);
    if r.targets.Dict? {
      AsMapWithin(r.targets.entries);
    }
    forall p ensures AskedSize(r, declared)(p) == AbsTerm(m)(p) {
      AskedIs(r, declared, p);
    }
    SumOverSupport(m.Keys, PairsOf(r, declared), AbsTerm(m));
    SumCongruent(PairsOf(r, declared), AbsTerm(m), AskedSize(r, declared));
  }

  // ---------------------------------------------------------------- what is allowed

  /** The target moves toward zero and not past it. */
  predicate Shrinks(from: real, to: real)
  {
    0.0 <= to < from || from < to <= 0.0
  }

  /** Room left in the day: under the cap, or in the exit reserve for a receipt that only reduces. */
  ghost predicate DayHasRoom(env: Env, s: State, r: Receipt)
  {
    var used := UsedOn(s, DayStart(r.tRecv));
    || used < env.rules.changesPerDay
    || (1_794_009_600_000 <= r.tRecv && used < env.rules.changesPerDay + 16
        && forall p :: Asked(r, s.declared, p) != Get(s.declared, p) ==> Shrinks(Get(s.declared, p), Asked(r, s.declared, p)))
  }

  /** The entries are good and the gross they lead to is within the cap. */
  ghost predicate TargetsOk(env: Env, s: State, r: Receipt)
  {
    && r.targets.Dict? && (forall e :: e in r.targets.entries ==> EntryOk(env, e))
    && Sum(PairsOf(r, s.declared), AskedSize(r, s.declared)) <= env.rules.grossCap + 0.000000000001
  }

  predicate Fresh(s: State, r: Receipt)
  {
    s.lastSeq.None? || s.lastSeq.value < r.seqNo
  }

  ghost predicate Moves(s: State, r: Receipt)
  {
    exists p :: Asked(r, s.declared, p) != Get(s.declared, p)
  }

  ghost predicate Allowed(env: Env, s: State, r: Receipt)
  {
    s.eliminatedAt.None? && Fresh(s, r) && TargetsOk(env, s, r) && Moves(s, r) && DayHasRoom(env, s, r)
  }

  lemma CheckIs(env: Env, s: State, r: Receipt)
    ensures CheckReceipt(env, r, s.declared).None? <==> TargetsOk(env, s, r)
    ensures r.targets.NotADict? ==> CheckReceipt(env, r, s.declared) == Some(BadTargets)
    ensures r.targets.Dict? && CheckReceipt(env, r, s.declared).Some? ==>
              var why := CheckReceipt(env, r, s.declared).value;
              if forall e :: e in r.targets.entries ==> EntryOk(env, e) then why == GrossCap
              else exists k: nat :: FirstToBreak(env, r.targets.entries, k, why)
  {
    hide FirstBadEntry, AsMap, GrossOf, EntryOk, FirstToBreak;
    GrossIs(r, s.declared);
    if r.targets.Dict? {
      FirstBadIs(env, r.targets.entries);
    }
  }

  /** What a receipt changes, pair by pair. */
  lemma ChangedIs(r: Receipt, declared: map<Pair, real>, p: Pair)
    ensures var c := Changed(TargetsOf(r), declared);
            && (p in c <==> Asked(r, declared, p) != Get(declared, p))
            && (p in c ==> c[p] == Asked(r, declared, p))
  {
    hide AsMap;
    AskedIs(r, declared, p);
    hide Asked;
  }

  lemma MovesIs(s: State, r: Receipt)
    ensures Moves(s, r) <==> Changed(TargetsOf(r), s.declared) != map[]
  {
    hide AsMap, Asked, Changed;
    var c := Changed(TargetsOf(r), s.declared);
    forall p ensures p in c <==> Asked(r, s.declared, p) != Get(s.declared, p) {
      ChangedIs(r, s.declared, p);
    }
    if c != map[] {
      assert exists p :: p in c;
    }
  }

  lemma ShrinksIs(from: real, to: real)
    requires from != to
    ensures Shrinks(from, to) <==> from != 0.0 && to * from >= 0.0 && Abs(to) < Abs(from)
  {
  }

  lemma RoomIs(env: Env, s: State, r: Receipt)
    requires Changed(TargetsOf(r), s.declared) != map[]
    ensures DayHasRoom(env, s, r)
            <==> ChangeAllowed(UsedOn(s, DayStart(r.tRecv)), Changed(TargetsOf(r), s.declared), s.declared, r.tRecv, env.rules)
  {
    hide AsMap, Asked, Changed, DayStart, Shrinks;
    var c := Changed(TargetsOf(r), s.declared);
    forall p
      ensures p in c <==> Asked(r, s.declared, p) != Get(s.declared, p)
      ensures p in c ==> (Shrinks(Get(s.declared, p), Asked(r, s.declared, p)) <==>
                            Get(s.declared, p) != 0.0 && c[p] * Get(s.declared, p) >= 0.0 && Abs(c[p]) < Abs(Get(s.declared, p)))
    {
      ChangedIs(r, s.declared, p);
      if p in c {
        ShrinksIs(Get(s.declared, p), c[p]);
      }
    }
  }

  /** A receipt moves the targets exactly when the rules allow it, and then to what it asks for. */
  lemma TakenIffAllowed(env: Env, s: State, r: Receipt, p: Pair)
    ensures TakesChange(env, s, r) <==> Allowed(env, s, r)
    ensures Get(Accept(env, s, r).declared, p) == if Allowed(env, s, r) then Asked(r, s.declared, p) else Get(s.declared, p)
  {
    hide CheckReceipt, TargetsOk, DayHasRoom, ChangeAllowed, Moves, Changed, Declare, Enqueue, DayStart, Asked;
    CheckIs(env, s, r);
    MovesIs(s, r);
    AskedIs(r, s.declared, p);
    var c := Changed(TargetsOf(r), s.declared);
    DeclareReads(s.declared, TargetsOf(r));
    if c != map[] {
      RoomIs(env, s, r);
      ChangedMoves(s.declared, TargetsOf(r));
    }
  }

  /** What happens to a receipt that is not taken: the first broken rule is named, or it changes nothing. */
  ghost predicate Outcome(env: Env, s: State, r: Receipt, n: State)
  {
    if Allowed(env, s, r) then n.refused == s.refused && n.noops == s.noops && n.lastSeq == Some(r.seqNo)
    else if s.eliminatedAt.None? && Fresh(s, r) && TargetsOk(env, s, r) && !Moves(s, r) then
      n.refused == s.refused && n.noops == s.noops + [r] && n.lastSeq == Some(r.seqNo)
    else
      && n.noops == s.noops && |n.refused| == |s.refused| + 1 && n.refused[..|s.refused|] == s.refused
      && n.refused[|s.refused|].0 == r && RefusedFor(env, s, r, n.refused[|s.refused|].1)
      && n.lastSeq == if s.eliminatedAt.None? && Fresh(s, r) && TargetsOk(env, s, r) then Some(r.seqNo) else s.lastSeq
  }

  ghost predicate RefusedFor(env: Env, s: State, r: Receipt, why: Reason)
  {
    if s.eliminatedAt.Some? then why == Eliminated
    else if !Fresh(s, r) then why == StaleSeq
    else if r.targets.NotADict? then why == BadTargets
    else if !(forall e :: e in r.targets.entries ==> EntryOk(env, e)) then exists k: nat :: FirstToBreak(env, r.targets.entries, k, why)
    else if !TargetsOk(env, s, r) then why == GrossCap
    else why == DayCap
  }

  lemma OutcomeOf(env: Env, s: State, r: Receipt)
    ensures Outcome(env, s, r, Accept(env, s, r))
  {
    hide CheckReceipt, DayHasRoom, ChangeAllowed, Moves, Changed, Declare, Enqueue, DayStart, AskedSize, EntryOk, FirstToBreak, PairsOf;
    CheckIs(env, s, r);
    MovesIs(s, r);
    if Changed(TargetsOf(r), s.declared) != map[] {
      RoomIs(env, s, r);
    }
  }
}
