/**
 Checkpoints, settlement and bets wait for one another (markets_vault.py:185-202, 336-362, 401-410), but never
 all at once: until every checkpoint up to a horizon is done some step can be taken, and only finitely many can.
 */
module VaultSchedule {
  import opened Wrappers
  import opened Sorting
  import opened Vault
  import opened VaultBalances
  import opened VaultRun
  import opened VaultSafety

  // ---------------------------------------------------------------- the grid

  /** The grid point of a time is the least one at or after it. */
  lemma GridCeilIsLeast(t: int, c: int)
    requires c % STEP_S == 0
    ensures GridCeil(t) <= c <==> t <= c
  {
    var k, m := -t / 900, c / 900;
    OnGrid(-t, k);
    OnGrid(c, m);
    MultiplesCompare(k, m, -t - 900 * k, t, c);
  }

  lemma OnGrid(x: int, k: int)
    requires k == x / 900
    ensures 900 * k <= x < 900 * k + 900 && (x % 900 == 0 ==> x == 900 * k)
  {
  }

  lemma MultiplesCompare(k: int, m: int, r: int, t: int, c: int)
    requires -t == 900 * k + r && 0 <= r < 900 && c == 900 * m
    ensures -k * 900 <= c <==> t <= c
  {
  }

  // ---------------------------------------------------------------- what a decided bet has seen

  /** The claim is an earlier deposit that is not applied yet although applying it would credit something. */
  ghost predicate Unseen(s: Setup, st: State, b: Bet, c: Claim)
  {
    && c in s.w.claims && c.kind == Deposit && c.tRecv < b.tRecv
    && CreditedThrough(s, st) * US < c.tRecv && DepositOne(st.db, s.w.ch, c) != st.db
  }

  /** Some run lets the bet be decided while an earlier deposit is not applied. */
  ghost predicate CanMissDeposit(b: Bet)
  {
    exists s, steps, st, c ::
      WellSet(s) && b in s.bets && Leads(s, steps, st) && Enabled(s, st, Decide(b)) && Unseen(s, st, b, c)
  }

  /**
   A bet waits for the grid point of its receipt second only: it can be decided before an earlier deposit is applied
   exactly when it falls into the second that starts at a checkpoint, with room for a deposit before it.
   */
  lemma ReadyForMissesOneSecond(b: Bet)
    requires b.tRecv < b.end * US
    ensures CanMissDeposit(b) <==> b.tRecv / US % STEP_S == 0 && b.tRecv % US > 1
  {
    if b.tRecv / US % STEP_S == 0 && b.tRecv % US > 1 {
      MissedDeposit(b);
    }
    hide WellSet, Leads, Enabled, Unseen;
    forall s, steps, st, c | WellSet(s) && Leads(s, steps, st) && Enabled(s, st, Decide(b)) && Unseen(s, st, b, c)
      ensures b.tRecv / US % STEP_S == 0 && b.tRecv % US > 1
    {
      DecidedBetSeesItsPast(s, steps, st, b);
      UnseenIsLate(s, st, b, c);
    }
  }

  lemma UnseenIsLate(s: Setup, st: State, b: Bet, c: Claim)
    requires Unseen(s, st, b, c) && GridCeil(b.tRecv / US) <= CreditedThrough(s, st)
    ensures b.tRecv / US % STEP_S == 0 && b.tRecv % US > 1
  {
    hide CreditedThrough, DepositOne;
    InsideItsSecond(b.tRecv);
  }

  /** A time is after the grid point of its second exactly when it lies inside the second that starts there. */
  lemma InsideItsSecond(t: int)
    ensures t / US <= GridCeil(t / US)
    ensures t <= GridCeil(t / US) * US <==> !(t / US % STEP_S == 0 && t % US > 0)
    ensures GridCeil(t / US) * US + 1 < t ==> t % US > 1
  {
    var sec := t / US;
    var c := GridCeil(sec);
    assert c % STEP_S == 0 by {
      assert c == -(-sec / STEP_S) * STEP_S;
    }
    GridCeilIsLeast(sec, c);
    if sec % STEP_S == 0 {
      GridCeilIsLeast(sec, sec);
    } else {
      assert sec < c;
    }
  }

  /** A bet that may be decided sees everything through the grid point of its second. */
  lemma DecidedBetSeesItsPast(s: Setup, steps: seq<Step>, st: State, b: Bet)
    requires WellSet(s) && Leads(s, steps, st) && Enabled(s, st, Decide(b))
    ensures GridCeil(b.tRecv / US) <= CreditedThrough(s, st)
    ensures !(b.tRecv / US % STEP_S == 0 && b.tRecv % US > 0) ==> b.tRecv <= CreditedThrough(s, st) * US
  {
    ReachableIsSafe(s, steps, st);
    CreditGuard(s, st, b);
    hide Safe, WellSet, Leads, CreditedThrough;
    InsideItsSecond(b.tRecv);
  }

  lemma CreditGuard(s: Setup, st: State, b: Bet)
    requires AtCursor(s, st) && ReadyFor(st.db, b.tRecv / US)
    ensures GridCeil(b.tRecv / US) <= CreditedThrough(s, st)
  {
  }

  // ---------------------------------------------------------------- a run that misses a deposit

  /** Settlement cycles of 72 minutes. */
  function EvenStarts(origin: int): nat -> int
  {
    (n: nat) => origin + 4320 * n
  }

  function EvenClosed(origin: int): int -> int
  {
    (t: int) => origin + 4320 * ((t - GRACE_S - origin) / 4320 - 1)
  }

  lemma EvenCalendar(s: Setup, origin: int)
    requires s.start == EvenStarts(origin) && s.w.market.closedBy == EvenClosed(origin)
    ensures Calendar(s)
  {
    forall t, n: nat ensures s.start(n) <= s.w.market.closedBy(t) <==> CloseOf(s, n) <= t {
      var q := (t - GRACE_S - origin) / 4320;
      assert 4320 * q <= t - GRACE_S - origin < 4320 * (q + 1);
    }
    forall t | s.start(0) <= s.w.market.closedBy(t) ensures exists n: nat :: s.w.market.closedBy(t) == s.start(n) {
      var q := (t - GRACE_S - origin) / 4320;
      assert s.w.market.closedBy(t) == s.start(q - 1);
    }
  }

  /** A market without emission and bets, where nobody has lost. */
  function EvenMarket(origin: int): Market
  {
    Market(EvenClosed(origin), (e: Entity, c: int) => None, (c: int) => map[], (e: Entity, t: int) => 0.0)
  }

  /** One alpha deposited by block zero, claimed at the given time. */
  function OneDeposit(tRecv: int): Claim
  {
    Claim(Key(0, 0), Deposit, 0, 1.0, 0, 0, OfClaim(Key(0, 0)), 0, tRecv)
  }

  function OneDepositChain(at: int): Chain
  {
    Chain((t: int) => Some(0), (b: int) => at, (b: int) => Some(1.0 as Price), (x: Extrinsic, hk: nat) => 1.0,
          (x: Extrinsic, e: Entity) => 0.0, (x: Extrinsic) => 0.0, (b: int) => 1.0)
  }

  /** The first checkpoint is the bet's second; a deposit arrives one microsecond into it. */
  function MissingSetup(b: Bet): Setup
  {
    var sec := b.tRecv / US;
    Setup(World([OneDeposit(sec * US + 1)], OneDepositChain(sec), EvenMarket(sec)), sec, EvenStarts(sec),
          (n: nat) => map[], (n: nat) => map[], {b})
  }

  lemma MissingIsWellSet(b: Bet)
    requires b.tRecv < b.end * US && b.tRecv / US % STEP_S == 0
    ensures WellSet(MissingSetup(b))
  {
    EvenCalendar(MissingSetup(b), b.tRecv / US);
    hide Calendar;
  }

  /** The deposit lies after the first checkpoint, so phase A of it finds nothing. */
  lemma NothingToCredit(b: Bet)
    ensures var s := MissingSetup(b);
            PhaseA(EmptyDb, s.w, s.first) == EmptyDb
  {
    var s := MissingSetup(b);
    forall kinds: set<Kind> ensures Claims(s.w.claims, kinds, s.first) == [] {
      FilterNone(OfKinds(kinds, s.first), s.w.claims);
    }
  }

  lemma MissedDeposit(b: Bet)
    requires b.tRecv < b.end * US && b.tRecv / US % STEP_S == 0 && b.tRecv % US > 1
    ensures CanMissDeposit(b)
  {
    var s, c := MissingSetup(b), OneDeposit(b.tRecv / US * US + 1);
    MissingIsWellSet(b);
    NothingToCredit(b);
    NextAtStart(s);
    hide WellSet, PhaseA, MaxOr, Leads, Claims;
    var st := State(EmptyDb.(credit := {s.first}), 0, {b});
    assert Enabled(s, Start(s), DoPhaseA);
    assert Do(s, Start(s), DoPhaseA) == st;
    OneStep(s, DoPhaseA, st);
    GridCeilIsLeast(s.first, s.first);
    assert s.first in st.db.credit && GridCeil(b.tRecv / US) <= s.first;
    assert Enabled(s, st, Decide(b));
    DepositIsNew(s, st, b);
    assert Unseen(s, st, b, c);
  }

  lemma OneStep(s: Setup, step: Step, st: State)
    requires Enabled(s, Start(s), step) && Do(s, Start(s), step) == st
    ensures Leads(s, [step], st)
  {
    hide Enabled, Do;
    var steps := [step];
    assert steps[..|steps| - 1] == [] && steps[|steps| - 1] == step;
    assert Leads(s, [], Start(s));
    assert Leads(s, steps[..|steps| - 1], Start(s));
  }

  lemma DepositIsNew(s: Setup, st: State, b: Bet)
    requires s == MissingSetup(b) && st.db.ledger == map[]
    ensures DepositOne(st.db, s.w.ch, OneDeposit(b.tRecv / US * US + 1)) != st.db
  {
    var c := OneDeposit(b.tRecv / US * US + 1);
    assert c.tRecv / US == b.tRecv / US;
    var n := DepositOne(st.db, s.w.ch, c);
    assert Dep(c.key) in n.ledger;
  }

  // ---------------------------------------------------------------- the guards

  /**
   When each step may be taken: phase A once a checkpoint, the check after it when every cycle closed by then is settled
   and every bet received by then is decided; a settlement when its close is not past the next checkpoint and no open
   bet ends before the cycle; a bet when the second of its receipt is credited and no unsettled cycle has closed by it.
   */
  lemma GuardsInPlain(s: Setup, st: State, step: Step)
    requires WellSet(s) && AtCursor(s, st)
    ensures var cp, close := Next(st.db, s.first), CloseOf(s, st.settled);
            Enabled(s, st, step) <==>
              match step
              case DoPhaseA => s.w.ch.blockAt(cp).Some? && cp !in st.db.credit
              case DoPhaseB => s.w.ch.blockAt(cp).Some? && cp in st.db.credit && cp < close && forall b :: b in st.undecided ==> cp * 1_000_000 < b.tRecv
              case DoSettle => close <= cp && forall b :: b in st.undecided ==> s.start(st.settled + 1) <= b.end
              case Decide(b) =>
                b in st.undecided && b.tRecv / 1_000_000 < close && exists c :: c in st.db.credit && b.tRecv / 1_000_000 <= c
  {
    hide SettledThrough, Calendar, CloseOf, CheckpointsDoneBefore, GridCeil, Next;
    var cp := Next(st.db, s.first);
    match step
    case DoPhaseA =>
    case DoPhaseB => SettledMeansClosesLater(s, st.settled, cp);
    case DoSettle => GuardMeansNotEarly(s, st);
    case Decide(b) =>
      SettledMeansClosesLater(s, st.settled, b.tRecv / US);
      forall c | c in st.db.credit ensures GridCeil(b.tRecv / US) <= c <==> b.tRecv / US <= c {
        GridCeilIsLeast(b.tRecv / US, c);
      }
  }

  // ---------------------------------------------------------------- some step is enabled

  /** Steps that only advance the vault up to the horizon. */
  ghost predicate Within(s: Setup, st: State, step: Step, upto: int)
  {
    match step
    case DoPhaseA => Next(st.db, s.first) <= upto
    case DoPhaseB => Next(st.db, s.first) <= upto
    case DoSettle => CloseOf(s, st.settled) <= upto
    case Decide(_) => true
  }

  /** A bet received by the next checkpoint, and before the next close, can be decided once that is credited. */
  lemma BetCanBeDecided(s: Setup, st: State, b: Bet)
    requires WellSet(s) && AtCursor(s, st) && Next(st.db, s.first) in st.db.credit && b in st.undecided
    requires b.tRecv / US <= Next(st.db, s.first) && b.tRecv / US < CloseOf(s, st.settled)
    ensures Enabled(s, st, Decide(b))
  {
    hide SettledThrough, CloseOf, Calendar;
    GridCeilIsLeast(b.tRecv / US, Next(st.db, s.first));
    SettledMeansClosesLater(s, st.settled, b.tRecv / US);
  }

  lemma SafeIsNotStuck(s: Setup, st: State, upto: int)
    requires WellSet(s) && AtCursor(s, st) && (forall b :: b in st.undecided ==> b.tRecv < b.end * US)
    requires Next(st.db, s.first) <= upto && s.w.ch.blockAt(Next(st.db, s.first)).Some?
    ensures exists step :: Enabled(s, st, step) && Within(s, st, step, upto)
  {
    hide SettledThrough, Calendar, MaxOr, CheckpointsDoneBefore, AtCursor, ReadyFor, Next;
    var cp := Next(st.db, s.first);
    SettledMeansClosesLater(s, st.settled, cp);
    if cp !in st.db.credit {
      assert Enabled(s, st, DoPhaseA) && Within(s, st, DoPhaseA, upto);
    } else if PhaseBReady(s, st, cp) {
      assert Enabled(s, st, DoPhaseB) && Within(s, st, DoPhaseB, upto);
    } else if CloseOf(s, st.settled) <= cp {
      GuardMeansNotEarly(s, st);
      if b :| b in st.undecided && b.end < s.start(st.settled + 1) {
        BetCanBeDecided(s, st, b);
        assert Within(s, st, Decide(b), upto);
      } else {
        assert Enabled(s, st, DoSettle) && Within(s, st, DoSettle, upto);
      }
    } else {
      var b :| b in st.undecided && b.tRecv <= cp * US;
      BetCanBeDecided(s, st, b);
      assert Within(s, st, Decide(b), upto);
    }
  }

  lemma {:induction false} BetsAreFromTheSetup(s: Setup, steps: seq<Step>, st: State)
    requires Leads(s, steps, st)
    ensures st.undecided <= s.bets
    decreases |steps|
  {
    hide Enabled;
    if steps != [] {
      hide PhaseA, PhaseB, Settle, Next;
      var front, last := steps[..|steps| - 1], steps[|steps| - 1];
      var before :| Leads(s, front, before) && Enabled(s, before, last) && Do(s, before, last) == st;
      BetsAreFromTheSetup(s, front, before);
    }
  }

  /** In every reachable state with a checkpoint left up to the horizon, some step is enabled. */
  lemma NoDeadlock(s: Setup, steps: seq<Step>, st: State, upto: int)
    requires WellSet(s) && Leads(s, steps, st)
    requires Next(st.db, s.first) <= upto && s.w.ch.blockAt(Next(st.db, s.first)).Some?
    ensures exists step :: Enabled(s, st, step) && Within(s, st, step, upto)
  {
    ReachableIsSafe(s, steps, st);
    BetsAreFromTheSetup(s, steps, st);
    hide Leads, Enabled, Next, Within, Calendar, AtCursor, Whole, KeysFrom, DebitsBy;
    SafeIsNotStuck(s, st, upto);
  }

  // ---------------------------------------------------------------- only finitely many steps

  function Left(x: int): nat
  {
    if x < 0 then 0 else x
  }

  /** Checkpoints and phases left, cycles left, bets undecided. */
  ghost function Measure(s: Setup, st: State, upto: int): nat
  {
    var cp := Next(st.db, s.first);
    2 * Left((upto - cp) / STEP_S + 1) + (if cp in st.db.credit then 0 else 1)
    + Left(upto - CloseOf(s, st.settled) + 1) + |st.undecided|
  }

  lemma StepCounts(s: Setup, st: State, step: Step, upto: int)
    requires WellSet(s) && AtCursor(s, st) && Enabled(s, st, step) && Within(s, st, step, upto)
    ensures Measure(s, Do(s, st, step), upto) < Measure(s, st, upto)
  {
    hide PhaseA, PhaseB, Settle, MaxOr, SettledThrough, CheckpointsDoneBefore;
    var cp := Next(st.db, s.first);
    match step
    case DoPhaseA => PhaseAFrame(st.db, s.w, cp);
    case DoPhaseB =>
      PhaseBFrame(st.db, s.w, cp, s.w.ch.blockAt(cp).value);
      NextAfterCheck(st.db, Do(s, st, step).db, s.first);
      assert (upto - (cp + STEP_S)) / STEP_S == (upto - cp) / STEP_S - 1;
    case DoSettle =>
      var n := st.settled;
      assert s.start(n + 1) < s.start(n + 2);
      SettleFrame(st.db, s.w.ch, n, CloseOf(s, n), s.owed(n), s.nets(n));
    case Decide(b) =>
      assert |st.undecided - {b}| == |st.undecided| - 1;
  }

  /** The steps lead to `st` without looking past the horizon. */
  ghost predicate LeadsWithin(s: Setup, steps: seq<Step>, st: State, upto: int)
  {
    if steps == [] then st == Start(s)
    else
      var front, last := steps[..|steps| - 1], steps[|steps| - 1];
      exists before :: LeadsWithin(s, front, before, upto) && Enabled(s, before, last) && Within(s, before, last, upto)
                       && Do(s, before, last) == st
  }

  lemma {:induction false} WithinIsARun(s: Setup, steps: seq<Step>, st: State, upto: int)
    requires LeadsWithin(s, steps, st, upto)
    ensures Leads(s, steps, st)
    decreases |steps|
  {
    hide Enabled, Within, Do;
    if steps != [] {
      var front, last := steps[..|steps| - 1], steps[|steps| - 1];
      var before :| LeadsWithin(s, front, before, upto) && Enabled(s, before, last) && Within(s, before, last, upto)
                    && Do(s, before, last) == st;
      WithinIsARun(s, front, before, upto);
    }
  }

  /** No run can take more steps than the measure of the start. */
  lemma {:induction false} RunsAreBounded(s: Setup, steps: seq<Step>, st: State, upto: int)
    requires WellSet(s) && LeadsWithin(s, steps, st, upto)
    ensures |steps| + Measure(s, st, upto) <= Measure(s, Start(s), upto)
    decreases |steps|
  {
    hide Enabled, Within, Do, Measure, WellSet;
    if steps != [] {
      var front, last := steps[..|steps| - 1], steps[|steps| - 1];
      var before :| LeadsWithin(s, front, before, upto) && Enabled(s, before, last) && Within(s, before, last, upto)
                    && Do(s, before, last) == st;
      RunsAreBounded(s, front, before, upto);
      WithinIsARun(s, front, before, upto);
      ReachableIsSafe(s, front, before);
      StepCounts(s, before, last, upto);
    }
  }

  /** A run that can go no further has done every checkpoint up to the horizon. */
  lemma RunsFinish(s: Setup, steps: seq<Step>, st: State, upto: int)
    requires WellSet(s) && LeadsWithin(s, steps, st, upto)
    requires forall c :: c <= upto ==> s.w.ch.blockAt(c).Some?
    requires forall step :: Enabled(s, st, step) ==> !Within(s, st, step, upto)
    ensures forall c :: s.first <= c <= upto && c % STEP_S == 0 ==> c in st.db.checks
    ensures |steps| <= Measure(s, Start(s), upto)
  {
    hide WellSet, Enabled, Within, Measure, Safe, MaxOr;
    WithinIsARun(s, steps, st, upto);
    RunsAreBounded(s, steps, st, upto);
    if Next(st.db, s.first) <= upto {
      NoDeadlock(s, steps, st, upto);
      assert false;
    }
    forall c | s.first <= c <= upto && c % STEP_S == 0 ensures c in st.db.checks {
      DoneBeforeNext(s, steps, st, c);
    }
  }

  /** Every grid point before the next checkpoint is done. */
  lemma {:induction false} DoneBeforeNext(s: Setup, steps: seq<Step>, st: State, c: int)
    requires WellSet(s) && Leads(s, steps, st) && s.first <= c < Next(st.db, s.first) && c % STEP_S == 0
    ensures c in st.db.checks
    decreases |steps|
  {
    hide Enabled, Do, Next, WellSet, Safe;
    if steps == [] {
      NextAtStart(s);
      assert false;
    } else {
      var front, last := steps[..|steps| - 1], steps[|steps| - 1];
      var before :| Leads(s, front, before) && Enabled(s, before, last) && Do(s, before, last) == st;
      ReachableIsSafe(s, front, before);
      CheckpointAdvances(s, before, last);
      if c < Next(before.db, s.first) {
        DoneBeforeNext(s, front, before, c);
      }
    }
  }

  lemma NextAtStart(s: Setup)
    ensures Next(Start(s).db, s.first) == s.first
  {
    assert EmptyDb.checks.Keys == {};
  }

  lemma CheckpointAdvances(s: Setup, st: State, step: Step)
    requires Safe(s, st) && Enabled(s, st, step)
    ensures var cp, n := Next(st.db, s.first), Do(s, st, step);
            if step == DoPhaseB then n.db.checks.Keys == st.db.checks.Keys + {cp} && Next(n.db, s.first) == cp + STEP_S && cp % STEP_S == 0
            else n.db.checks == st.db.checks && Next(n.db, s.first) == cp
  {
    hide Whole, KeysFrom, DebitsBy, PhaseA, PhaseB, Settle, MaxOr, SettledThrough, CheckpointsDoneBefore;
    var cp := Next(st.db, s.first);
    match step
    case DoPhaseA => PhaseAFrame(st.db, s.w, cp);
    case DoPhaseB =>
      PhaseBFrame(st.db, s.w, cp, s.w.ch.blockAt(cp).value);
      NextAfterCheck(st.db, Do(s, st, step).db, s.first);
    case DoSettle =>
      var n := st.settled;
      SettleFrame(st.db, s.w.ch, n, CloseOf(s, n), s.owed(n), s.nets(n));
    case Decide(b) =>
  }
}
