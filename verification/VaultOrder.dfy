/**
 When the tables are determined (markets_vault.py:185-202, 301-330, 364-400): a settlement may run before or after
 phase A of the checkpoint that covers its close, and the two orders agree on every run exactly when no deposit or
 release claim of that span touches a payout of the cycle.
 */
module VaultOrder {
  import opened Wrappers
  import opened Vault
  import opened VaultBalances
  import opened VaultRun
  import opened VaultSafety
  import opened VaultSchedule
  import opened VaultReplay
  import opened VaultCommute

  // ---------------------------------------------------------------- the canonical tables

  /** The first cycle from `n` on that closes after `t`. */
  ghost function FirstOpen(s: Setup, t: int, n: nat): (m: nat)
    requires Calendar(s)
    ensures n <= m && t < CloseOf(s, m) && forall j: nat :: n <= j < m ==> CloseOf(s, j) <= t
    decreases t - CloseOf(s, n)
  {
    if t < CloseOf(s, n) then n
    else
      assert s.start(n + 1) < s.start(n + 2);
      FirstOpen(s, t, n + 1)
  }

  function CpOf(s: Setup, i: nat): int
  {
    s.first + STEP_S * i
  }

  /** The cycles settled when the checkpoint is reached: those closed by the one before. */
  ghost function SettledBefore(s: Setup, i: nat): nat
    requires Calendar(s)
  {
    if i == 0 then 0 else FirstOpen(s, CpOf(s, i - 1), 0)
  }

  function ClosingOf(s: Setup, n: nat): Closing
  {
    Closing(n, CloseOf(s, n), s.owed(n), s.nets(n))
  }

  /** The cycles from `m` to before `n` settled one after the other. */
  ghost function SettleAll(s: Setup, d: Db, m: nat, n: nat): Db
    decreases n
  {
    if n <= m then d else SettleIt(SettleAll(s, d, m, n - 1), s.w.ch, ClosingOf(s, n - 1))
  }

  ghost function Credited(s: Setup, d: Db, cp: int): Db
  {
    PhaseA(d, s.w, cp).(credit := d.credit + {cp})
  }

  /** The tables when a checkpoint is reached, with every phase A run before the settlements of its span. */
  ghost function Base(s: Setup, i: nat): Db
    requires Calendar(s)
    decreases i, 0
  {
    if i == 0 then EmptyDb
    else
      var cp := CpOf(s, i - 1);
      PhaseB(Table(s, i - 1, true, SettledBefore(s, i)), s.w, cp, if s.w.ch.blockAt(cp).Some? then s.w.ch.blockAt(cp).value else 0)
  }

  /** The tables at a checkpoint, before or after its phase A, with the cycles before `n` settled. */
  ghost function Table(s: Setup, i: nat, credited: bool, n: nat): Db
    requires Calendar(s)
    decreases i, 1
  {
    SettleAll(s, if credited then Credited(s, Base(s, i), CpOf(s, i)) else Base(s, i), SettledBefore(s, i), n)
  }

  // ---------------------------------------------------------------- the condition

  ghost predicate BlocksKnown(s: Setup, i: nat)
  {
    forall j: nat :: j < i ==> s.w.ch.blockAt(CpOf(s, j)).Some?
  }

  /** No bet holds the settlement up before the first phase A. */
  ghost predicate NoBetWaits(s: Setup, i: nat, n: nat)
  {
    i > 0 || forall b :: b in s.bets ==> s.start(n + 1) <= b.end
  }

  /** The cycle may settle before phase A of the checkpoint, or after it. */
  ghost predicate EitherOrder(s: Setup, i: nat, n: nat)
    requires Calendar(s)
  {
    SettledBefore(s, i) <= n && CloseOf(s, n) <= CpOf(s, i) && BlocksKnown(s, i + 1) && NoBetWaits(s, i, n)
  }

  /** Wherever two orders are possible, no deposit and no release claim of the span touches a payout of the cycle. */
  ghost predicate OrderFree(s: Setup)
    requires Calendar(s)
  {
    forall i: nat, n: nat :: EitherOrder(s, i, n) ==> Undisturbed(Table(s, i, false, n), s.w, CpOf(s, i), ClosingOf(s, n))
  }

  /** Two runs have come equally far: the same checkpoint, before or after its phase A, and the same cycles settled. */
  ghost predicate SameStage(s: Setup, x: State, y: State)
  {
    var cp := Next(x.db, s.first);
    Next(y.db, s.first) == cp && (cp in x.db.credit <==> cp in y.db.credit) && x.settled == y.settled
  }

  ghost predicate Determined(s: Setup)
  {
    forall xs, x, ys, y :: Leads(s, xs, x) && Leads(s, ys, y) && SameStage(s, x, y) ==> x.db == y.db
  }

  // ---------------------------------------------------------------- cycles and checkpoints

  lemma FirstOpenIs(s: Setup, t: int, n: nat)
    requires Calendar(s) && t < CloseOf(s, n) && (n > 0 ==> CloseOf(s, n - 1) <= t)
    ensures FirstOpen(s, t, 0) == n
  {
    var m := FirstOpen(s, t, 0);
    if m < n {
      StartsGrow(s, m + 1, n);
    }
  }

  lemma NextCp(s: Setup, i: nat)
    ensures CpOf(s, i) + STEP_S == CpOf(s, i + 1)
  {
  }

  lemma UnsettledAtNext(s: Setup, st: State)
    requires WellSet(s) && Safe(s, st)
    ensures Unsettled(st.db, s.w.ch, ClosingOf(s, st.settled))
  {
    hide Whole, KeysFrom, Received, CreditedThrough, AtCursor, HotkeysInOrder, NoCycleRows, NoPayoutRows, Next;
    var a, b := Received(s.w.claims, CreditedThrough(s, st)), Received(s.w.claims, Next(st.db, s.first) - STEP_S);
    var n := st.settled;
    WholeOfBoth(st.db, s.w.ch, Next(st.db, s.first) * US, CloseOf(s, n) * US - 1);
    NoRowsYet(st.db, n, a, b, HotkeysInOrder(s.owed(n).Keys));
    NoRowsYet(st.db, n, a, b, HotkeysInOrder(s.nets(n).Keys));
  }

  // ---------------------------------------------------------------- exchanging the orders

  lemma {:induction false} PayoutsIgnoreCredit(d: Db, c: set<int>, cycle: nat, tc: int, nets: map<Entity, real>, es: seq<Entity>, p: Price)
    ensures PayoutAll(d.(credit := c), cycle, tc, nets, es, p) == PayoutAll(d, cycle, tc, nets, es, p).(credit := c)
    decreases |es|
  {
    hide PayoutOf, ToUnits, FloorRao, Amounts;
    if es != [] {
      PayoutsIgnoreCredit(d, c, cycle, tc, nets, es[..|es| - 1], p);
    }
  }

  lemma SettleIgnoresCredit(d: Db, c: set<int>, ch: Chain, x: Closing)
    ensures SettleIt(d.(credit := c), ch, x) == SettleIt(d, ch, x).(credit := c)
  {
    hide ReserveAll, ReserveScale, PayoutAll, HotkeysInOrder, PriceAt;
    if PriceAt(ch, x.tc).Some? {
      PayoutsIgnoreCredit(ReservePay(d, ch, x.cycle, x.tc, x.owed), c, x.cycle, x.tc, x.nets, HotkeysInOrder(x.nets.Keys), PriceAt(ch, x.tc).value);
    }
  }

  lemma SettleKeepsCredit(d: Db, ch: Chain, x: Closing)
    ensures SettleIt(d, ch, x).credit == d.credit
  {
    SettleFrame(d, ch, x.cycle, x.tc, x.owed, x.nets);
  }

  /** One settlement and phase A, with the mark that phase A is done. */
  lemma CreditAndSettle(s: Setup, d: Db, cp: int, n: nat)
    requires Unsettled(d, s.w.ch, ClosingOf(s, n))
    ensures Credited(s, SettleIt(d, s.w.ch, ClosingOf(s, n)), cp) == SettleIt(Credited(s, d, cp), s.w.ch, ClosingOf(s, n))
            <==> Undisturbed(d, s.w, cp, ClosingOf(s, n))
  {
    hide Unsettled, Undisturbed, SettleIt, PhaseA;
    var x := ClosingOf(s, n);
    var c := d.credit + {cp};
    OrdersAgreeIff(d, s.w, cp, x);
    SettleKeepsCredit(d, s.w.ch, x);
    SettleIgnoresCredit(PhaseA(d, s.w, cp), c, s.w.ch, x);
    var left, right := PhaseA(SettleIt(d, s.w.ch, x), s.w, cp), SettleIt(PhaseA(d, s.w, cp), s.w.ch, x);
    PhaseAFrame(SettleIt(d, s.w.ch, x), s.w, cp);
    PhaseAFrame(d, s.w, cp);
    SettleKeepsCredit(PhaseA(d, s.w, cp), s.w.ch, x);
    assert left.credit == right.credit;
  }

  /** The settlements of a span so far were possible before phase A and had posted nothing before. */
  ghost predicate EarlyOnes(s: Setup, i: nat, n: nat)
    requires Calendar(s)
  {
    forall j: nat :: SettledBefore(s, i) <= j < n ==>
      Unsettled(Table(s, i, false, j), s.w.ch, ClosingOf(s, j)) && CloseOf(s, j) <= CpOf(s, i) && NoBetWaits(s, i, j)
  }

  /** When nothing is disturbed, phase A may come after the settlements of its span. */
  lemma {:induction false} CreditLast(s: Setup, i: nat, n: nat)
    requires Calendar(s) && OrderFree(s) && EarlyOnes(s, i, n) && BlocksKnown(s, i + 1)
    ensures Credited(s, Table(s, i, false, n), CpOf(s, i)) == Table(s, i, true, n)
    decreases n
  {
    hide Calendar, Unsettled, Undisturbed, Credited, SettleIt, BlocksKnown, NoBetWaits, SettledBefore, Table, EarlyOnes;
    if n <= SettledBefore(s, i) {
      CreditAtOnce(s, i, n);
    } else {
      EarlyFront(s, i, n);
      CreditLast(s, i, n - 1);
      assert EitherOrder(s, i, n - 1);
      CreditAndSettle(s, Table(s, i, false, n - 1), CpOf(s, i), n - 1);
      TableStep(s, i, n - 1);
    }
  }

  lemma CreditAtOnce(s: Setup, i: nat, n: nat)
    requires Calendar(s) && n <= SettledBefore(s, i)
    ensures Credited(s, Table(s, i, false, n), CpOf(s, i)) == Table(s, i, true, n)
  {
    hide Calendar, Base, Credited, SettledBefore;
  }

  lemma TableStep(s: Setup, i: nat, n: nat)
    requires Calendar(s) && SettledBefore(s, i) <= n
    ensures forall c :: Table(s, i, c, n + 1) == SettleIt(Table(s, i, c, n), s.w.ch, ClosingOf(s, n))
  {
    hide Calendar, Base, Credited, SettledBefore, SettleIt;
  }

  lemma EarlyFront(s: Setup, i: nat, n: nat)
    requires Calendar(s) && EarlyOnes(s, i, n) && n > SettledBefore(s, i)
    ensures EarlyOnes(s, i, n - 1)
    ensures Unsettled(Table(s, i, false, n - 1), s.w.ch, ClosingOf(s, n - 1)) && CloseOf(s, n - 1) <= CpOf(s, i) && NoBetWaits(s, i, n - 1)
  {
    hide Calendar, Unsettled, NoBetWaits, Base, SettledBefore, Table;
  }

  // ---------------------------------------------------------------- every run of an undisturbed setup

  /** The state has the tables of its stage, and what settled before phase A could have settled after it. */
  ghost predicate Tabled(s: Setup, st: State, i: nat)
    requires Calendar(s)
  {
    var cp := CpOf(s, i);
    && Next(st.db, s.first) == cp && BlocksKnown(s, i) && SettledBefore(s, i) <= st.settled
    && st.db == Table(s, i, cp in st.db.credit, st.settled)
    && (cp !in st.db.credit ==> EarlyOnes(s, i, st.settled))
    && (cp in st.db.credit ==> s.w.ch.blockAt(cp).Some?)
  }

  /** Bets still open were received after the last check; before the first phase A none is decided. */
  ghost predicate BetsLate(s: Setup, st: State)
  {
    var cp := Next(st.db, s.first);
    if cp == s.first then cp !in st.db.credit ==> st.undecided == s.bets
    else forall b :: b in st.undecided ==> (cp - STEP_S) * US < b.tRecv
  }

  lemma StartIsTabled(s: Setup)
    requires Calendar(s)
    ensures Tabled(s, Start(s), 0) && BetsLate(s, Start(s))
  {
    NextAtStart(s);
    hide Next, Calendar;
  }

  lemma BetsStayLate(s: Setup, st: State, step: Step)
    requires WellSet(s) && Safe(s, st) && BetsLate(s, st) && Enabled(s, st, step)
    ensures BetsLate(s, Do(s, st, step))
  {
    hide Whole, KeysFrom, DebitsBy, Calendar, PhaseA, PhaseB, Settle, MaxOr, SettledThrough, CheckpointsDoneBefore;
    CheckpointAdvances(s, st, step);
    var cp := Next(st.db, s.first);
    match step
    case DoPhaseA => PhaseAFrame(st.db, s.w, cp);
    case DoPhaseB => PhaseBFrame(st.db, s.w, cp, s.w.ch.blockAt(cp).value);
    case DoSettle => SettleFrame(st.db, s.w.ch, st.settled, CloseOf(s, st.settled), s.owed(st.settled), s.nets(st.settled));
    case Decide(b) =>
  }

  lemma {:induction false} BetsAreLate(s: Setup, steps: seq<Step>, st: State)
    requires WellSet(s) && Leads(s, steps, st)
    ensures BetsLate(s, st)
    decreases |steps|
  {
    hide Enabled, Do, Safe, WellSet, BetsLate;
    if steps == [] {
      StartBetsLate(s);
    } else {
      var front, last := steps[..|steps| - 1], steps[|steps| - 1];
      var before :| Leads(s, front, before) && Enabled(s, before, last) && Do(s, before, last) == st;
      BetsAreLate(s, front, before);
      ReachableIsSafe(s, front, before);
      BetsStayLate(s, before, last);
    }
  }

  lemma StartBetsLate(s: Setup)
    ensures BetsLate(s, Start(s))
  {
    NextAtStart(s);
    hide Next;
  }

  /** Before the first phase A a cycle settles only past every bet that ends before its own end. */
  lemma EarlySettlement(s: Setup, st: State, i: nat)
    requires WellSet(s) && Safe(s, st) && BetsLate(s, st) && Enabled(s, st, DoSettle)
    requires Next(st.db, s.first) == CpOf(s, i) && CpOf(s, i) !in st.db.credit
    ensures NoBetWaits(s, i, st.settled) && CloseOf(s, st.settled) <= CpOf(s, i)
    ensures Unsettled(st.db, s.w.ch, ClosingOf(s, st.settled))
  {
    hide Whole, KeysFrom, DebitsBy, Calendar, Unsettled, Next, CheckpointsDoneBefore;
    UnsettledAtNext(s, st);
    GuardMeansNotEarly(s, st);
  }

  lemma SettleStaysTabled(s: Setup, st: State, i: nat)
    requires WellSet(s) && Safe(s, st) && BetsLate(s, st) && Tabled(s, st, i) && Enabled(s, st, DoSettle)
    ensures Tabled(s, Do(s, st, DoSettle), i)
  {
    hide Safe, Calendar, BetsLate, Enabled, Unsettled, SettleIt, Base, SettledBefore, NoBetWaits, BlocksKnown, Credited;
    var n := Do(s, st, DoSettle);
    CheckpointAdvances(s, st, DoSettle);
    SettleNext(s, st, i);
    SettleKeepsCredit(st.db, s.w.ch, ClosingOf(s, st.settled));
    if CpOf(s, i) !in st.db.credit {
      EarlySettlement(s, st, i);
    }
  }

  lemma SettleNext(s: Setup, st: State, i: nat)
    requires Calendar(s) && Enabled(s, st, DoSettle) && SettledBefore(s, i) <= st.settled
    ensures var n := Do(s, st, DoSettle);
            && n.db == SettleIt(st.db, s.w.ch, ClosingOf(s, st.settled)) && n.settled == st.settled + 1
            && forall c :: Table(s, i, c, st.settled + 1) == SettleIt(Table(s, i, c, st.settled), s.w.ch, ClosingOf(s, st.settled))
  {
    hide Settle, CheckpointsDoneBefore, Calendar, SettledBefore, Base, Credited;
  }

  lemma CreditStep(s: Setup, st: State, i: nat)
    requires Next(st.db, s.first) == CpOf(s, i) && Enabled(s, st, DoPhaseA)
    ensures var n := Do(s, st, DoPhaseA);
            && n.db == Credited(s, st.db, CpOf(s, i)) && n.settled == st.settled
            && CpOf(s, i) !in st.db.credit && CpOf(s, i) in n.db.credit && s.w.ch.blockAt(CpOf(s, i)).Some?
  {
    hide PhaseA, Next;
  }

  lemma OneMoreBlock(s: Setup, i: nat)
    requires BlocksKnown(s, i) && s.w.ch.blockAt(CpOf(s, i)).Some?
    ensures BlocksKnown(s, i + 1)
  {
  }

  lemma CreditStaysTabled(s: Setup, st: State, i: nat)
    requires WellSet(s) && Safe(s, st) && OrderFree(s) && Tabled(s, st, i) && Enabled(s, st, DoPhaseA)
    ensures Tabled(s, Do(s, st, DoPhaseA), i)
  {
    hide Safe, Calendar, Enabled, Do, Table, SettledBefore, EarlyOnes, BlocksKnown, Credited, OrderFree;
    CheckpointAdvances(s, st, DoPhaseA);
    CreditStep(s, st, i);
    OneMoreBlock(s, i);
    CreditLast(s, i, st.settled);
  }

  /** The check of a checkpoint starts the next stage. */
  lemma CheckStaysTabled(s: Setup, st: State, i: nat)
    requires WellSet(s) && Safe(s, st) && Tabled(s, st, i) && Enabled(s, st, DoPhaseB)
    ensures Tabled(s, Do(s, st, DoPhaseB), i + 1) && Do(s, st, DoPhaseB).settled == SettledBefore(s, i + 1)
  {
    hide Safe, Calendar, Enabled, Table, BlocksKnown, Do;
    var n := Do(s, st, DoPhaseB);
    CheckpointAdvances(s, st, DoPhaseB);
    CheckStep(s, st, i);
    NextCp(s, i);
    OneMoreBlock(s, i);
    NothingEarly(s, i + 1);
    assert n.db == Base(s, i + 1);
    BaseIsTable(s, i + 1);
  }

  lemma BaseIsTable(s: Setup, i: nat)
    requires Calendar(s)
    ensures Table(s, i, false, SettledBefore(s, i)) == Base(s, i)
  {
    hide Calendar, Base;
  }

  lemma NothingEarly(s: Setup, i: nat)
    requires Calendar(s)
    ensures EarlyOnes(s, i, SettledBefore(s, i))
  {
    hide Calendar, SettledBefore;
  }

  lemma CheckStep(s: Setup, st: State, i: nat)
    requires WellSet(s) && Safe(s, st) && Next(st.db, s.first) == CpOf(s, i) && Enabled(s, st, DoPhaseB)
    ensures var cp, n := CpOf(s, i), Do(s, st, DoPhaseB);
            && s.w.ch.blockAt(cp).Some? && cp in st.db.credit
            && n.db == PhaseB(st.db, s.w, cp, s.w.ch.blockAt(cp).value)
            && n.settled == st.settled == SettledBefore(s, i + 1)
            && CpOf(s, i + 1) !in n.db.credit
  {
    hide Whole, KeysFrom, DebitsBy, Calendar, PhaseB, Next, SettledThrough, FirstOpen;
    var cp := CpOf(s, i);
    PhaseBFrame(st.db, s.w, cp, s.w.ch.blockAt(cp).value);
    SettledMeansClosesLater(s, st.settled, cp);
    FirstOpenIs(s, cp, st.settled);
  }

  /** On every run of an undisturbed setup the tables are those of the stage. */
  lemma {:induction false} RunIsTabled(s: Setup, steps: seq<Step>, st: State) returns (i: nat)
    requires WellSet(s) && OrderFree(s) && Leads(s, steps, st)
    ensures Tabled(s, st, i)
    decreases |steps|
  {
    hide Enabled, Do, Safe, Calendar, Tabled, BetsLate, OrderFree;
    if steps == [] {
      i := 0;
      StartIsTabled(s);
    } else {
      var front, last := steps[..|steps| - 1], steps[|steps| - 1];
      var before :| Leads(s, front, before) && Enabled(s, before, last) && Do(s, before, last) == st;
      i := RunIsTabled(s, front, before);
      BetsAreLate(s, front, before);
      ReachableIsSafe(s, front, before);
      match last
      case DoPhaseA => CreditStaysTabled(s, before, i);
      case DoPhaseB =>
        CheckStaysTabled(s, before, i);
        i := i + 1;
      case DoSettle => SettleStaysTabled(s, before, i);
      case Decide(b) => DecideStaysTabled(s, before, i, b);
    }
  }

  lemma DecideStaysTabled(s: Setup, st: State, i: nat, b: Bet)
    requires Calendar(s) && Tabled(s, st, i) && Enabled(s, st, Decide(b))
    ensures Tabled(s, Do(s, st, Decide(b)), i)
  {
    hide Calendar, Next, Table, EarlyOnes, BlocksKnown, SettledBefore;
  }

  lemma SameStageSameTables(s: Setup, x: State, i: nat, y: State, j: nat)
    requires Calendar(s) && Tabled(s, x, i) && Tabled(s, y, j) && SameStage(s, x, y)
    ensures x.db == y.db
  {
    hide Calendar, Table, EarlyOnes, BlocksKnown, SettledBefore, Next;
    assert i == j;
  }

  lemma FreeIsDetermined(s: Setup)
    requires WellSet(s) && OrderFree(s)
    ensures Determined(s)
  {
    hide Leads, WellSet, OrderFree, SameStage, Tabled;
    forall xs, x, ys, y | Leads(s, xs, x) && Leads(s, ys, y) && SameStage(s, x, y) ensures x.db == y.db {
      var i := RunIsTabled(s, xs, x);
      var j := RunIsTabled(s, ys, y);
      assert Calendar(s) by {
        HasCalendar(s);
      }
      SameStageSameTables(s, x, i, y, j);
    }
  }

  lemma HasCalendar(s: Setup)
    requires WellSet(s)
    ensures Calendar(s)
  {
  }

  // ---------------------------------------------------------------- runs that credit first

  /** Phase A of the next checkpoint runs before any settlement. */
  ghost predicate CreditsFirst(s: Setup, st: State, step: Step)
  {
    step == DoSettle ==> Next(st.db, s.first) in st.db.credit
  }

  ghost predicate LeadsCrediting(s: Setup, steps: seq<Step>, st: State)
  {
    if steps == [] then st == Start(s)
    else
      var front, last := steps[..|steps| - 1], steps[|steps| - 1];
      exists before :: LeadsCrediting(s, front, before) && Enabled(s, before, last) && CreditsFirst(s, before, last)
                       && Do(s, before, last) == st
  }

  lemma {:induction false} CreditingIsARun(s: Setup, steps: seq<Step>, st: State)
    requires LeadsCrediting(s, steps, st)
    ensures Leads(s, steps, st)
    decreases |steps|
  {
    hide Enabled, CreditsFirst, Do;
    if steps != [] {
      var front, last := steps[..|steps| - 1], steps[|steps| - 1];
      var before :| LeadsCrediting(s, front, before) && Enabled(s, before, last) && CreditsFirst(s, before, last) && Do(s, before, last) == st;
      CreditingIsARun(s, front, before);
    }
  }

  lemma OneMoreCrediting(s: Setup, steps: seq<Step>, st: State, step: Step)
    requires LeadsCrediting(s, steps, st) && Enabled(s, st, step) && CreditsFirst(s, st, step)
    ensures LeadsCrediting(s, steps + [step], Do(s, st, step))
  {
    hide Enabled, Do, CreditsFirst;
    assert (steps + [step])[..|steps|] == steps;
  }

  /** The tables of a run that credits first, whatever the setup. */
  ghost predicate Canonical(s: Setup, st: State, i: nat)
    requires Calendar(s)
  {
    Tabled(s, st, i) && (CpOf(s, i) !in st.db.credit ==> st.settled == SettledBefore(s, i))
  }

  lemma {:induction false} CreditingIsCanonical(s: Setup, steps: seq<Step>, st: State) returns (i: nat)
    requires WellSet(s) && LeadsCrediting(s, steps, st)
    ensures Canonical(s, st, i)
    decreases |steps|
  {
    hide Enabled, Do, Safe, Calendar, Canonical, BetsLate, CreditsFirst;
    if steps == [] {
      i := 0;
      StartIsCanonical(s);
    } else {
      var front, last := steps[..|steps| - 1], steps[|steps| - 1];
      var before :| LeadsCrediting(s, front, before) && Enabled(s, before, last) && CreditsFirst(s, before, last) && Do(s, before, last) == st;
      i := CreditingIsCanonical(s, front, before);
      CreditingIsARun(s, front, before);
      BetsAreLate(s, front, before);
      ReachableIsSafe(s, front, before);
      if last == DoPhaseB {
        CheckStaysCanonical(s, before, i);
        i := i + 1;
      } else {
        StaysCanonical(s, before, i, last);
      }
    }
  }

  lemma StartIsCanonical(s: Setup)
    requires Calendar(s)
    ensures Canonical(s, Start(s), 0)
  {
    StartIsTabled(s);
    hide Calendar, Tabled;
  }

  lemma CheckStaysCanonical(s: Setup, st: State, i: nat)
    requires WellSet(s) && Safe(s, st) && Canonical(s, st, i) && Enabled(s, st, DoPhaseB)
    ensures Canonical(s, Do(s, st, DoPhaseB), i + 1)
  {
    hide Safe, Calendar, Enabled, Do, Tabled;
    CheckStaysTabled(s, st, i);
  }

  lemma StaysCanonical(s: Setup, st: State, i: nat, step: Step)
    requires WellSet(s) && Safe(s, st) && BetsLate(s, st) && Canonical(s, st, i)
    requires Enabled(s, st, step) && CreditsFirst(s, st, step) && step != DoPhaseB
    ensures Canonical(s, Do(s, st, step), i)
  {
    hide Safe, Calendar, BetsLate, Enabled, Table, EarlyOnes, SettledBefore, BlocksKnown, Do;
    match step
    case DoPhaseA =>
      CheckpointAdvances(s, st, step);
      CreditStep(s, st, i);
      CreditOfBase(s, i);
      OneMoreBlock(s, i);
    case DoSettle =>
      SettleStaysTabled(s, st, i);
      SettleIsSettle(s, st);
    case Decide(b) =>
      DecideStaysTabled(s, st, i, b);
      DecideKeepsTables(s, st, b);
  }

  lemma SettleIsSettle(s: Setup, st: State)
    requires Enabled(s, st, DoSettle)
    ensures Do(s, st, DoSettle).db.credit == st.db.credit
  {
    hide Settle, Enabled;
    SettleFrame(st.db, s.w.ch, st.settled, CloseOf(s, st.settled), s.owed(st.settled), s.nets(st.settled));
  }

  lemma DecideKeepsTables(s: Setup, st: State, b: Bet)
    requires Enabled(s, st, Decide(b))
    ensures Do(s, st, Decide(b)).db == st.db && Do(s, st, Decide(b)).settled == st.settled
  {
  }

  lemma CreditOfBase(s: Setup, i: nat)
    requires Calendar(s)
    ensures Credited(s, Table(s, i, false, SettledBefore(s, i)), CpOf(s, i)) == Table(s, i, true, SettledBefore(s, i))
  {
    hide Calendar, Base, Credited;
  }

  // ---------------------------------------------------------------- reaching a checkpoint

  /** A run that credits first and has come to a checkpoint. */
  ghost predicate ComesTo(s: Setup, i: nat)
    requires Calendar(s)
  {
    exists steps, st :: LeadsCrediting(s, steps, st) && Next(st.db, s.first) == CpOf(s, i) && CpOf(s, i) !in st.db.credit
  }

  /** While the checkpoint is not done some step can be taken that credits first. */
  lemma CreditingStep(s: Setup, steps: seq<Step>, st: State, i: nat) returns (step: Step)
    requires WellSet(s) && LeadsCrediting(s, steps, st) && Next(st.db, s.first) == CpOf(s, i) && s.w.ch.blockAt(CpOf(s, i)).Some?
    ensures Enabled(s, st, step) && CreditsFirst(s, st, step) && Within(s, st, step, CpOf(s, i))
  {
    hide WellSet, Leads, LeadsCrediting, Enabled, Within, Next;
    CreditingIsARun(s, steps, st);
    if CpOf(s, i) !in st.db.credit {
      step := DoPhaseA;
      CreditIsEnabled(s, st, i);
    } else {
      NoDeadlock(s, steps, st, CpOf(s, i));
      step :| Enabled(s, st, step) && Within(s, st, step, CpOf(s, i));
    }
  }

  lemma CreditIsEnabled(s: Setup, st: State, i: nat)
    requires Next(st.db, s.first) == CpOf(s, i) && s.w.ch.blockAt(CpOf(s, i)).Some? && CpOf(s, i) !in st.db.credit
    ensures Enabled(s, st, DoPhaseA) && Within(s, st, DoPhaseA, CpOf(s, i))
  {
    hide Next;
  }

  lemma {:induction false} ComesToNext(s: Setup, steps: seq<Step>, st: State, i: nat)
    requires WellSet(s) && LeadsCrediting(s, steps, st) && Next(st.db, s.first) == CpOf(s, i) && s.w.ch.blockAt(CpOf(s, i)).Some?
    ensures ComesTo(s, i + 1)
    decreases Measure(s, st, CpOf(s, i))
  {
    hide Enabled, Within, Do, Measure, Safe, CreditsFirst, Leads, LeadsCrediting, Next, Calendar;
    var step := CreditingStep(s, steps, st, i);
    CreditingIsARun(s, steps, st);
    ReachableIsSafe(s, steps, st);
    CheckpointAdvances(s, st, step);
    OneMoreCrediting(s, steps, st, step);
    if step == DoPhaseB {
      CheckStep(s, st, i);
      NextCp(s, i);
      assert LeadsCrediting(s, steps + [step], Do(s, st, step));
    } else {
      MeasureFalls(s, st, step, CpOf(s, i));
      ComesToNext(s, steps + [step], Do(s, st, step), i);
    }
  }

  lemma MeasureFalls(s: Setup, st: State, step: Step, upto: int)
    requires WellSet(s) && Safe(s, st) && Enabled(s, st, step) && Within(s, st, step, upto)
    ensures Measure(s, Do(s, st, step), upto) < Measure(s, st, upto)
  {
    hide Whole, KeysFrom, DebitsBy, WellSet, AtCursor, Enabled, Within, Measure;
    StepCounts(s, st, step, upto);
  }

  lemma {:induction false} ComesToAll(s: Setup, i: nat)
    requires WellSet(s) && BlocksKnown(s, i)
    ensures ComesTo(s, i)
    decreases i
  {
    hide WellSet, LeadsCrediting, Next, Calendar;
    HasCalendar(s);
    if i == 0 {
      ComesToFirst(s);
    } else {
      FewerBlocks(s, i - 1);
      ComesToAll(s, i - 1);
      var steps, st :| LeadsCrediting(s, steps, st) && Next(st.db, s.first) == CpOf(s, i - 1) && CpOf(s, i - 1) !in st.db.credit;
      ComesToNext(s, steps, st, i - 1);
    }
  }

  lemma FewerBlocks(s: Setup, i: nat)
    requires BlocksKnown(s, i + 1)
    ensures BlocksKnown(s, i) && s.w.ch.blockAt(CpOf(s, i)).Some?
  {
  }

  lemma ComesToFirst(s: Setup)
    requires Calendar(s)
    ensures ComesTo(s, 0)
  {
    NextAtStart(s);
    hide Next, Calendar;
    var none: seq<Step> := [];
    assert LeadsCrediting(s, none, Start(s));
  }

  // ---------------------------------------------------------------- two runs at every possible exchange

  /** The run has the tables before phase A with the cycles before `n` settled, and nothing holds the next one up. */
  ghost predicate StandsBefore(s: Setup, steps: seq<Step>, st: State, i: nat, n: nat)
    requires Calendar(s)
  {
    && Leads(s, steps, st) && Next(st.db, s.first) == CpOf(s, i) && CpOf(s, i) !in st.db.credit
    && st.settled == n && SettledBefore(s, i) <= n && st.db == Table(s, i, false, n)
  }

  lemma StandsAtBase(s: Setup, i: nat) returns (steps: seq<Step>, st: State)
    requires WellSet(s) && BlocksKnown(s, i)
    ensures StandsBefore(s, steps, st, i, SettledBefore(s, i))
  {
    hide Leads, LeadsCrediting, Next, Calendar, Table, SettledBefore, EarlyOnes;
    ComesToAll(s, i);
    steps, st :| LeadsCrediting(s, steps, st) && Next(st.db, s.first) == CpOf(s, i) && CpOf(s, i) !in st.db.credit;
    CreditingIsARun(s, steps, st);
    var j := CreditingIsCanonical(s, steps, st);
    assert j == i;
  }

  /** Bets open at a later checkpoint end after the cycle; at the first, none may end before. */
  lemma CanSettle(s: Setup, st: State, i: nat)
    requires WellSet(s) && Safe(s, st) && BetsLate(s, st) && Next(st.db, s.first) == CpOf(s, i) && CpOf(s, i) !in st.db.credit
    requires st.undecided <= s.bets && CloseOf(s, st.settled) <= CpOf(s, i) && NoBetWaits(s, i, st.settled)
    ensures Enabled(s, st, DoSettle)
  {
    hide Whole, KeysFrom, DebitsBy, Calendar, Next, CheckpointsDoneBefore;
    GuardMeansNotEarly(s, st);
    forall b | b in st.undecided ensures s.start(st.settled + 1) <= b.end {
      if i > 0 {
        assert (CpOf(s, i) - STEP_S) * US < b.tRecv < b.end * US;
      }
    }
  }

  lemma {:induction false} StandsLater(s: Setup, i: nat, n: nat) returns (steps: seq<Step>, st: State)
    requires WellSet(s) && SettledBefore(s, i) <= n && BlocksKnown(s, i)
    requires forall j: nat :: SettledBefore(s, i) <= j < n ==> CloseOf(s, j) <= CpOf(s, i) && NoBetWaits(s, i, j)
    ensures StandsBefore(s, steps, st, i, n)
    decreases n
  {
    hide Leads, Next, Calendar, Table, SettledBefore, Safe, BetsLate, NoBetWaits, BlocksKnown, Enabled, Do;
    if n == SettledBefore(s, i) {
      steps, st := StandsAtBase(s, i);
    } else {
      var xs, x := StandsLater(s, i, n - 1);
      ReachableIsSafe(s, xs, x);
      BetsAreLate(s, xs, x);
      BetsAreFromTheSetup(s, xs, x);
      CanSettle(s, x, i);
      OneMore(s, xs, x, DoSettle);
      CheckpointAdvances(s, x, DoSettle);
      SettleNext(s, x, i);
      SettleIsSettle(s, x);
      steps, st := xs + [DoSettle], Do(s, x, DoSettle);
    }
  }

  /** Earlier cycles close earlier and wait for fewer bets. */
  lemma EarlierCloses(s: Setup, i: nat, j: nat, n: nat)
    requires Calendar(s) && j <= n && CloseOf(s, n) <= CpOf(s, i) && NoBetWaits(s, i, n)
    ensures CloseOf(s, j) <= CpOf(s, i) && NoBetWaits(s, i, j)
  {
    StartsGrow(s, j + 1, n + 1);
    hide Calendar;
  }

  /** Both orders from there on. */
  lemma BothOrders(s: Setup, steps: seq<Step>, st: State, i: nat, n: nat)
    requires WellSet(s) && Determined(s) && StandsBefore(s, steps, st, i, n)
    requires CloseOf(s, n) <= CpOf(s, i) && s.w.ch.blockAt(CpOf(s, i)).Some? && NoBetWaits(s, i, n)
    ensures Credited(s, SettleIt(st.db, s.w.ch, ClosingOf(s, n)), CpOf(s, i)) == SettleIt(Credited(s, st.db, CpOf(s, i)), s.w.ch, ClosingOf(s, n))
  {
    hide Leads, Next, Calendar, Table, SettledBefore, Safe, BetsLate, NoBetWaits, Enabled, Do, Determined, SettleIt,
         Credited;
    ReachableIsSafe(s, steps, st);
    BetsAreLate(s, steps, st);
    BetsAreFromTheSetup(s, steps, st);
    CanSettle(s, st, i);
    CreditIsEnabled(s, st, i);
    var a, b := Do(s, st, DoPhaseA), Do(s, st, DoSettle);
    CheckpointAdvances(s, st, DoPhaseA);
    CheckpointAdvances(s, st, DoSettle);
    CreditStep(s, st, i);
    SettleNext(s, st, i);
    SettleIsSettle(s, st);
    OneMore(s, steps, st, DoPhaseA);
    OneMore(s, steps, st, DoSettle);
    StillSettles(s, st, i);
    CreditIsEnabled(s, b, i);
    CreditStep(s, b, i);
    BothAdvance(s, steps, st, i);
    SettleNext(s, a, i);
    SettleIsSettle(s, a);
    OneMore(s, steps + [DoPhaseA], a, DoSettle);
    OneMore(s, steps + [DoSettle], b, DoPhaseA);
    var x, y := Do(s, a, DoSettle), Do(s, b, DoPhaseA);
    assert SameStage(s, x, y);
    UseDetermined(s, steps + [DoPhaseA] + [DoSettle], x, steps + [DoSettle] + [DoPhaseA], y);
  }

  lemma UseDetermined(s: Setup, xs: seq<Step>, x: State, ys: seq<Step>, y: State)
    requires Determined(s) && Leads(s, xs, x) && Leads(s, ys, y) && SameStage(s, x, y)
    ensures x.db == y.db
  {
    hide Leads, SameStage;
  }

  /** After phase A the cycle can settle as before it. */
  lemma StillSettles(s: Setup, st: State, i: nat)
    requires Enabled(s, st, DoPhaseA) && Enabled(s, st, DoSettle)
    ensures Enabled(s, Do(s, st, DoPhaseA), DoSettle)
  {
    hide PhaseA, Next;
    PhaseAFrame(st.db, s.w, Next(st.db, s.first));
  }

  lemma BothAdvance(s: Setup, steps: seq<Step>, st: State, i: nat)
    requires WellSet(s) && Leads(s, steps, st) && Enabled(s, st, DoPhaseA) && Enabled(s, st, DoSettle)
    requires Enabled(s, Do(s, st, DoPhaseA), DoSettle) && Enabled(s, Do(s, st, DoSettle), DoPhaseA)
    ensures var a, b := Do(s, st, DoPhaseA), Do(s, st, DoSettle);
            Next(Do(s, a, DoSettle).db, s.first) == Next(a.db, s.first) && Next(Do(s, b, DoPhaseA).db, s.first) == Next(b.db, s.first)
  {
    hide Leads, Next, Safe, Enabled, Do;
    ReachableIsSafe(s, steps, st);
    StepKeepsSafe(s, st, DoPhaseA);
    StepKeepsSafe(s, st, DoSettle);
    CheckpointAdvances(s, Do(s, st, DoPhaseA), DoSettle);
    CheckpointAdvances(s, Do(s, st, DoSettle), DoPhaseA);
  }

  lemma DeterminedIsFree(s: Setup)
    requires WellSet(s) && Determined(s)
    ensures OrderFree(s)
  {
    hide WellSet, Determined, EitherOrder, Undisturbed, Table;
    HasCalendar(s);
    forall i: nat, n: nat | EitherOrder(s, i, n) ensures Undisturbed(Table(s, i, false, n), s.w, CpOf(s, i), ClosingOf(s, n)) {
      DeterminedIsUndisturbed(s, i, n);
    }
  }

  lemma DeterminedIsUndisturbed(s: Setup, i: nat, n: nat)
    requires WellSet(s) && Determined(s) && EitherOrder(s, i, n)
    ensures Undisturbed(Table(s, i, false, n), s.w, CpOf(s, i), ClosingOf(s, n))
  {
    hide Leads, Next, Calendar, Table, SettledBefore, Safe, NoBetWaits, Determined, Undisturbed, Unsettled, SettleIt,
         Credited, BlocksKnown;
    FewerBlocks(s, i);
    forall j: nat | SettledBefore(s, i) <= j < n ensures CloseOf(s, j) <= CpOf(s, i) && NoBetWaits(s, i, j) {
      EarlierCloses(s, i, j, n);
    }
    var steps, st := StandsLater(s, i, n);
    BothOrders(s, steps, st, i, n);
    ReachableIsSafe(s, steps, st);
    UnsettledAtNext(s, st);
    CreditAndSettle(s, st.db, CpOf(s, i), n);
  }

  // ---------------------------------------------------------------- the main result

  /**
   Any two runs that have come equally far have the same tables exactly when, wherever a cycle may settle before or
   after phase A of the checkpoint that covers its close, no deposit of that span received by the close changes what
   a payout of the cycle takes, and no release claim of that span would release one of the cycle's payouts. Both
   are read off the claims, the chain and the settlement rows.
   */
  lemma DeterminedIffOrderFree(s: Setup)
    requires WellSet(s)
    ensures Determined(s) <==> OrderFree(s)
  {
    hide Determined, OrderFree, WellSet;
    HasCalendar(s);
    if Determined(s) {
      DeterminedIsFree(s);
    }
    if OrderFree(s) {
      FreeIsDetermined(s);
    }
  }

  /** Runs that credit first agree on every setup. */
  lemma CreditingRunsAgree(s: Setup, xs: seq<Step>, x: State, ys: seq<Step>, y: State)
    requires WellSet(s) && LeadsCrediting(s, xs, x) && LeadsCrediting(s, ys, y) && SameStage(s, x, y)
    ensures x.db == y.db
  {
    hide LeadsCrediting, WellSet, SameStage, Tabled;
    HasCalendar(s);
    var i := CreditingIsCanonical(s, xs, x);
    var j := CreditingIsCanonical(s, ys, y);
    SameStageSameTables(s, x, i, y, j);
  }
}
