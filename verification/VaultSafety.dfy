/**
 Every state a run of the vault can reach is safe: the interlock of checkpoints and settlement posts debits in
 time order, so no balance is ever below zero, units are conserved, and requests are released once.
 */
module VaultSafety {
  import opened Wrappers
  import opened Vault
  import opened VaultLaws
  import opened VaultBalances
  import opened VaultRun

  /** Where the run stands: checkpoints lie on the grid, each credited before it is checked; the cycles closed
      by the last check are settled, and no cycle that closes after the next one is. */
  ghost predicate AtCursor(s: Setup, st: State)
  {
    var cp := Next(st.db, s.first);
    && s.first <= cp && cp % STEP_S == 0
    && (forall c :: c in st.db.checks ==> s.first <= c <= cp - STEP_S && c in st.db.credit)
    && (forall c :: c in st.db.credit ==> c <= cp && c % STEP_S == 0 && (c < cp ==> c in st.db.checks))
    && (cp != s.first ==> cp - STEP_S in st.db.checks && cp - STEP_S < CloseOf(s, st.settled))
    && (st.settled > 0 ==> CloseOf(s, st.settled - 1) <= cp)
    && (forall k :: k in st.db.exits ==> k.1 <= cp - STEP_S)
  }

  /** The claims whose deposits and releases have been applied: through the next checkpoint once it is credited. */
  ghost function CreditedThrough(s: Setup, st: State): int
  {
    var cp := Next(st.db, s.first);
    if cp in st.db.credit then cp else cp - STEP_S
  }

  ghost predicate Safe(s: Setup, st: State)
  {
    var cp := Next(st.db, s.first);
    && AtCursor(s, st)
    && Whole(st.db, s.w.ch, cp * US)
    && DebitsBy(st.db.ledger, CloseOf(s, st.settled) * US - 1)
    && KeysFrom(st.db, Received(s.w.claims, CreditedThrough(s, st)), Received(s.w.claims, cp - STEP_S), st.settled)
  }

  // ---------------------------------------------------------------- the calendar

  lemma {:induction false} StartsGrow(s: Setup, m: nat, n: nat)
    requires Calendar(s) && m <= n
    ensures s.start(m) <= s.start(n) && (m < n ==> s.start(m) < s.start(n))
    decreases n
  {
    if m < n {
      StartsGrow(s, m, n - 1);
    }
  }

  /** Settled through `t`: the next cycle to settle closes after `t`. */
  lemma SettledMeansClosesLater(s: Setup, settled: nat, t: int)
    requires Calendar(s)
    ensures SettledThrough(s, settled, t) <==> t < CloseOf(s, settled)
  {
    var closed := s.w.market.closedBy(t);
    assert s.start(settled) <= closed <==> CloseOf(s, settled) <= t;
    StartsGrow(s, 0, settled);
    if settled > 0 {
      StartsGrow(s, settled - 1, settled);
      if t < CloseOf(s, settled) && s.start(0) <= closed {
        ClosedBefore(s, t, settled);
      }
    }
  }

  lemma ClosedBefore(s: Setup, t: int, settled: nat)
    requires Calendar(s) && settled > 0 && s.start(0) <= s.w.market.closedBy(t) < s.start(settled)
    ensures s.w.market.closedBy(t) <= s.start(settled - 1)
  {
    var n: nat :| s.w.market.closedBy(t) == s.start(n);
    hide Calendar;
    if settled <= n {
      StartsGrow(s, settled, n);
    } else {
      StartsGrow(s, n, settled - 1);
    }
  }

  /** The settlement guard: a cycle settles only when every checkpoint before its close is done. */
  lemma GuardMeansNotEarly(s: Setup, st: State)
    requires s.first % STEP_S == 0 && AtCursor(s, st)
    ensures CheckpointsDoneBefore(st.db, s.first, CloseOf(s, st.settled)) <==> CloseOf(s, st.settled) <= Next(st.db, s.first)
  {
    var t, cp := CloseOf(s, st.settled), Next(st.db, s.first);
    var last := (t - 1) / STEP_S * STEP_S;
    assert last <= t - 1 < last + STEP_S;
    if t <= cp && last >= s.first {
      assert last <= cp - STEP_S;
      assert cp - STEP_S in st.db.checks;
    }
  }

  // ---------------------------------------------------------------- what each step leaves alone

  lemma {:induction false} DepositsFrame(db: Db, ch: Chain, cs: seq<Claim>)
    ensures var n := Deposits(db, ch, cs);
            n.requests == db.requests && n.exits == db.exits && n.checks == db.checks && n.credit == db.credit
    decreases |cs|
  {
    if cs != [] {
      hide ToUnits, Timely, RefUsed;
      DepositsFrame(db, ch, cs[..|cs| - 1]);
    }
  }

  lemma {:induction false} ReleasesFrame(db: Db, ch: Chain, cs: seq<Claim>)
    ensures var n := Releases(db, ch, cs);
            n.ledger == db.ledger && n.exits == db.exits && n.checks == db.checks && n.credit == db.credit
    decreases |cs|
  {
    if cs != [] {
      ReleasesFrame(db, ch, cs[..|cs| - 1]);
    }
  }

  lemma PhaseAFrame(db: Db, w: World, cp: int)
    ensures var n := PhaseA(db, w, cp);
            n.exits == db.exits && n.checks == db.checks && n.credit == db.credit
  {
    hide Claims;
    var cs := Claims(w.claims, {Deposit}, cp);
    DepositsFrame(db, w.ch, cs);
    ReleasesFrame(Deposits(db, w.ch, cs), w.ch, Claims(w.claims, {Release}, cp));
  }

  lemma {:induction false} SweepsFrame(db: Db, w: World, cp: int, cs: seq<Claim>)
    ensures var n := Sweeps(db, w, cp, cs);
            n.requests == db.requests && n.exits == db.exits && n.checks == db.checks && n.credit == db.credit
    decreases |cs|
  {
    if cs != [] {
      hide SweepOne;
      SweepsFrame(db, w, cp, cs[..|cs| - 1]);
    }
  }

  lemma {:induction false} RequestsFrame(db: Db, w: World, cp: int, price: Option<Price>, cs: seq<Claim>)
    ensures var n := Requests(db, w, cp, price, cs);
            && n.checks == db.checks && n.credit == db.credit
            && (forall k :: k in n.exits && k !in db.exits ==> k.1 == cp)
    decreases |cs|
  {
    if cs != [] {
      hide RoomOf, ApprovedFor, ToUnits;
      RequestsFrame(db, w, cp, price, cs[..|cs| - 1]);
    }
  }

  lemma PhaseBFrame(db: Db, w: World, cp: int, blk: int)
    ensures var n := PhaseB(db, w, cp, blk);
            && n.credit == db.credit && n.checks.Keys == db.checks.Keys + {cp}
            && (forall k :: k in n.exits && k !in db.exits ==> k.1 == cp)
            && (forall c :: c in db.checks && c != cp ==> n.checks[c] == db.checks[c])
  {
    hide Claims, CheckOf, Defaults;
    var xs := Claims(w.claims, {Sweep}, cp);
    SweepsFrame(db, w, cp, xs);
    RequestsFrame(Sweeps(db, w, cp, xs), w, cp, w.ch.price(blk), Claims(w.claims, {Withdraw, Exit}, cp));
  }

  lemma {:induction false} PayoutAllFrame(db: Db, cycle: nat, tc: int, nets: map<Entity, real>, es: seq<Entity>, p: Price)
    ensures var n := PayoutAll(db, cycle, tc, nets, es, p);
            n.exits == db.exits && n.checks == db.checks && n.credit == db.credit
    decreases |es|
  {
    if es != [] {
      hide PayoutOf, ToUnits, FloorRao;
      PayoutAllFrame(db, cycle, tc, nets, es[..|es| - 1], p);
    }
  }

  lemma SettleFrame(db: Db, ch: Chain, cycle: nat, tc: int, owed: map<Entity, real>, nets: map<Entity, real>)
    ensures var n := Settle(db, ch, cycle, tc, owed, nets);
            n.exits == db.exits && n.checks == db.checks && n.credit == db.credit
  {
    hide ReserveAll, HotkeysInOrder, ReserveScale;
    if PriceAt(ch, tc).Some? {
      PayoutAllFrame(ReservePay(db, ch, cycle, tc, owed), cycle, tc, nets, HotkeysInOrder(nets.Keys), PriceAt(ch, tc).value);
    }
  }

  // ---------------------------------------------------------------- each step keeps the run safe

  lemma StartIsSafe(s: Setup)
    requires WellSet(s)
    ensures Safe(s, Start(s))
  {
    assert EmptyDb.checks.Keys == {};
    EmptyIsWhole(s.w.ch, s.first * US);
    hide Whole;
  }

  lemma PhaseAKeepsCursor(s: Setup, st: State)
    requires AtCursor(s, st) && Enabled(s, st, DoPhaseA)
    ensures var n, cp := Do(s, st, DoPhaseA), Next(st.db, s.first);
            AtCursor(s, n) && Next(n.db, s.first) == cp && CreditedThrough(s, n) == cp
  {
    hide PhaseA, CloseOf, MaxOr;
    PhaseAFrame(st.db, s.w, Next(st.db, s.first));
  }

  lemma PhaseAKeepsSafe(s: Setup, st: State)
    requires WellSet(s) && Safe(s, st) && Enabled(s, st, DoPhaseA)
    ensures Safe(s, Do(s, st, DoPhaseA))
  {
    hide AtCursor, KeysFrom, Received, PhaseA, CloseOf, MaxOr, Whole, DebitsBy, Calendar, Keyed, Next;
    PhaseAKeepsCursor(s, st);
    var cp, n := Next(st.db, s.first), Do(s, st, DoPhaseA);
    var b := Received(s.w.claims, cp - STEP_S);
    WholeOfBoth(st.db, s.w.ch, cp * US, CloseOf(s, st.settled) * US - 1);
    PhaseAKeeps(st.db, s.w, cp, cp * US, b, b, st.settled);
    PhaseAKeeps(st.db, s.w, cp, CloseOf(s, st.settled) * US - 1, b, b, st.settled);
    SameRows(PhaseA(st.db, s.w, cp), n.db, s.w.ch, cp * US, Received(s.w.claims, cp), b, st.settled);
    WholeHasDebitsBy(PhaseA(st.db, s.w, cp), s.w.ch, CloseOf(s, st.settled) * US - 1);
  }

  lemma WholeOfBoth(db: Db, ch: Chain, t: int, u: int)
    requires Whole(db, ch, t) && DebitsBy(db.ledger, u)
    ensures Whole(db, ch, u)
  {
    hide Balanced, CreditsArrived, NeverNegative, RequestsSound;
  }

  lemma WholeHasDebitsBy(db: Db, ch: Chain, t: int)
    requires Whole(db, ch, t)
    ensures DebitsBy(db.ledger, t)
  {
  }

  lemma SameRows(x: Db, y: Db, ch: Chain, t: int, a: set<Key>, b: set<Key>, n: nat)
    requires Whole(x, ch, t) && KeysFrom(x, a, b, n) && x.ledger == y.ledger && x.requests == y.requests
    ensures Whole(y, ch, t) && KeysFrom(y, a, b, n)
  {
    hide KeysFrom;
    ExitsDoNotMatter(x, y, ch, t);
    hide Whole;
    SameKeysFrom(x, y, a, b, n);
  }

  lemma SameKeysFrom(x: Db, y: Db, a: set<Key>, b: set<Key>, n: nat)
    requires KeysFrom(x, a, b, n) && x.ledger == y.ledger && x.requests == y.requests
    ensures KeysFrom(y, a, b, n)
  {
  }

  lemma PhaseBKeepsSafe(s: Setup, st: State)
    requires WellSet(s) && Safe(s, st) && Enabled(s, st, DoPhaseB)
    ensures Safe(s, Do(s, st, DoPhaseB))
  {
    hide KeysFrom, Received, Whole, DebitsBy, PhaseB, AtCursor, Next, Calendar, SettledThrough;
    var cp, n := Next(st.db, s.first), Do(s, st, DoPhaseB);
    var blk := s.w.ch.blockAt(cp).value;
    PhaseBKeepsCursor(s, st);
    PhaseBKeeps(st.db, s.w, cp, blk, Received(s.w.claims, cp), Received(s.w.claims, cp - STEP_S), st.settled);
    WholeLater(n.db, s.w.ch, cp * US, (cp + STEP_S) * US);
    WholeLater(n.db, s.w.ch, cp * US, CloseOf(s, st.settled) * US - 1);
    WholeHasDebitsBy(n.db, s.w.ch, CloseOf(s, st.settled) * US - 1);
  }

  lemma PhaseBKeepsCursor(s: Setup, st: State)
    requires WellSet(s) && AtCursor(s, st) && Enabled(s, st, DoPhaseB)
    ensures var n, cp := Do(s, st, DoPhaseB), Next(st.db, s.first);
            && AtCursor(s, n) && Next(n.db, s.first) == cp + STEP_S && cp < CloseOf(s, st.settled)
            && CreditedThrough(s, st) == cp && CreditedThrough(s, n) == cp
  {
    hide PhaseB, MaxOr, SettledThrough, Calendar, CloseOf;
    var cp, n := Next(st.db, s.first), Do(s, st, DoPhaseB);
    PhaseBFrame(st.db, s.w, cp, s.w.ch.blockAt(cp).value);
    NextAfterCheck(st.db, n.db, s.first);
    SettledMeansClosesLater(s, st.settled, cp);
  }

  lemma NextAfterCheck(db: Db, n: Db, first: int)
    requires n.checks.Keys == db.checks.Keys + {Next(db, first)}
    ensures Next(n, first) == Next(db, first) + STEP_S
  {
    assert Next(db, first) in n.checks.Keys;
  }

  lemma SettleKeepsCursor(s: Setup, st: State)
    requires WellSet(s) && AtCursor(s, st) && Enabled(s, st, DoSettle)
    ensures var n, cp := Do(s, st, DoSettle), Next(st.db, s.first);
            && AtCursor(s, n) && Next(n.db, s.first) == cp && CreditedThrough(s, n) == CreditedThrough(s, st)
            && CloseOf(s, st.settled) <= cp && CloseOf(s, st.settled) < CloseOf(s, n.settled)
  {
    hide Settle, MaxOr, CheckpointsDoneBefore;
    GuardMeansNotEarly(s, st);
    var c := st.settled;
    assert s.start(c + 1) < s.start(c + 2);
    SettleFrame(st.db, s.w.ch, c, CloseOf(s, c), s.owed(c), s.nets(c));
  }

  lemma SettleKeepsSafe(s: Setup, st: State)
    requires WellSet(s) && Safe(s, st) && Enabled(s, st, DoSettle)
    ensures Safe(s, Do(s, st, DoSettle))
  {
    hide KeysFrom, Received, Whole, DebitsBy, Settle, AtCursor, Next, Calendar, CheckpointsDoneBefore, CloseOf,
         CreditedThrough;
    var cp, n, c := Next(st.db, s.first), Do(s, st, DoSettle), st.settled;
    SettleKeepsCursor(s, st);
    WholeOfBoth(st.db, s.w.ch, cp * US, CloseOf(s, c) * US - 1);
    SettleKeeps(st.db, s.w.ch, c, CloseOf(s, c), s.owed(c), s.nets(c),
                Received(s.w.claims, CreditedThrough(s, st)), Received(s.w.claims, cp - STEP_S));
    SettleFrom(st.db, s.w.ch, c, CloseOf(s, c), s.owed(c), s.nets(c),
               Received(s.w.claims, CreditedThrough(s, st)), Received(s.w.claims, cp - STEP_S));
    WholeLater(n.db, s.w.ch, CloseOf(s, c) * US, cp * US);
    WholeLater(n.db, s.w.ch, CloseOf(s, c) * US, CloseOf(s, c + 1) * US - 1);
    WholeHasDebitsBy(n.db, s.w.ch, CloseOf(s, c + 1) * US - 1);
  }

  lemma StepKeepsSafe(s: Setup, st: State, step: Step)
    requires WellSet(s) && Safe(s, st) && Enabled(s, st, step)
    ensures Safe(s, Do(s, st, step))
  {
    hide Safe, WellSet;
    match step
    case DoPhaseA => PhaseAKeepsSafe(s, st);
    case DoPhaseB => PhaseBKeepsSafe(s, st);
    case DoSettle => SettleKeepsSafe(s, st);
    case Decide(b) => DecideKeepsSafe(s, st, step);
  }

  lemma DecideKeepsSafe(s: Setup, st: State, step: Step)
    requires Safe(s, st) && Enabled(s, st, step) && step.Decide?
    ensures Safe(s, Do(s, st, step))
  {
    hide Whole, KeysFrom, Received, MaxOr;
  }

  /** Every reachable state is safe. */
  lemma {:induction false} ReachableIsSafe(s: Setup, steps: seq<Step>, st: State)
    requires WellSet(s) && Leads(s, steps, st)
    ensures Safe(s, st)
    decreases |steps|
  {
    hide Safe, WellSet, Enabled, Do;
    if steps == [] {
      StartIsSafe(s);
    } else {
      var front, last := steps[..|steps| - 1], steps[|steps| - 1];
      var before :| Leads(s, front, before) && Enabled(s, before, last) && Do(s, before, last) == st;
      ReachableIsSafe(s, front, before);
      StepKeepsSafe(s, before, last);
    }
  }

  /**
   On every run: no entity's balance, nor the reserve's, is below zero at any instant; units held plus units
   approved out are the units that came in, which are no more than what arrived on chain; and a transfer
   releases at most one request.
   */
  lemma EveryRunIsWhole(s: Setup, steps: seq<Step>, st: State)
    requires WellSet(s) && Leads(s, steps, st)
    ensures forall e, t :: UnitsAt(st.db.ledger, e, t) >= 0.0
    ensures Total(st.db.ledger) + Debits(s.w.ch, st.db.requests) == Inflow(st.db.ledger) <= Arrived(st.db.ledger, s.w.ch)
    ensures DepositsExact(st.db.ledger, s.w.ch) && RequestsSound(st.db.requests, s.w.ch)
  {
    hide WellSet, Leads, UnitsAt, Total, Debits, Inflow, Arrived, DepositsExact, RequestsSound;
    ReachableIsSafe(s, steps, st);
  }
}
