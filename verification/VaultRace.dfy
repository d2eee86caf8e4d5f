/**
 A settlement whose close falls between two checkpoints may run before or after phase A of the later one: the guard
 of settlement asks only for the checkpoints strictly before the close (markets_vault.py:193-202, 301-328). Two
 runs over the same claims, chain and settlement rows then write different rows.
 */
module VaultRace {
  import opened Wrappers
  import opened Sums
  import opened Sorting
  import opened Vault
  import opened VaultRun
  import opened VaultSafety
  import opened VaultSchedule
  import opened VaultReplay
  import opened VaultCommute
  import opened VaultOrder

  const HK := Hotkey(0)

  /** One alpha is deposited 220 seconds before the close at 5220; the next checkpoint is at 5400. */
  const DEPOSIT := OneDeposit(5000 * US)

  const RACE_CHAIN := OneDepositChain(5000)

  /** The players of the entity finished the first cycle one alpha ahead. */
  const RACE := Setup(World([DEPOSIT], RACE_CHAIN, EvenMarket(0)), 5400, EvenStarts(0),
                      (n: nat) => map[], (n: nat) => map[HK := 1.0], {})

  lemma RaceIsWellSet()
    ensures WellSet(RACE)
  {
    EvenCalendar(RACE, 0);
    hide Calendar;
  }

  lemma OneHotkey()
    ensures HotkeysInOrder(map[HK := 1.0 as real].Keys) == [HK]
  {
    var s := {HK};
    assert map[HK := 1.0 as real].Keys == s;
    assert s - {HK} == {};
    NoHotkeys();
  }

  lemma NoHotkeys()
    ensures HotkeysInOrder({}) == []
  {
  }

  lemma SpanClaims()
    ensures Claims([DEPOSIT], {Deposit}, 5400) == [DEPOSIT] && Claims([DEPOSIT], {Release}, 5400) == []
  {
    var cs := [DEPOSIT];
    assert cs[..0] == [];
    assert Filter(OfKinds({Deposit}, 5400), cs) == [DEPOSIT];
    assert Filter(OfKinds({Release}, 5400), cs) == [];
  }

  const CREDIT := Row(5000 * US, HK, 1.0, 1.0, DepositRow, (0, 0))

  /** Phase A credits the deposit and touches no request. */
  lemma RacePhaseA(db: Db)
    requires Dep(DEPOSIT.key) !in db.ledger && !RefUsed(db.ledger, DepositRow, (0, 0))
    ensures PhaseA(db, RACE.w, 5400) == db.(ledger := db.ledger[Dep(DEPOSIT.key) := CREDIT])
  {
    SpanClaims();
    var cs := [DEPOSIT];
    assert cs[..0] == [];
    assert Deposits(db, RACE_CHAIN, cs) == DepositOne(Deposits(db, RACE_CHAIN, []), RACE_CHAIN, DEPOSIT);
  }

  function PayoutStatus(db: Db): Option<Status>
  {
    if OfPayout(0, HK) in db.requests then Some(db.requests[OfPayout(0, HK)].status) else None
  }

  /** What settling a cycle does when one entity is one alpha ahead and the price is one. */
  lemma OnePayout(db: Db, ch: Chain, tc: int)
    requires PriceAt(ch, tc) == Some(1.0 as Price) && OfPayout(0, HK) !in db.requests && Payout(0, HK) !in db.ledger
    ensures UnitsAt(db.ledger, HK, tc * US) == 1.0 ==>
              Settle(db, ch, 0, tc, map[], map[HK := 1.0])
              == db.(ledger := db.ledger[Payout(0, HK) := Row(tc * US, HK, -1.0, -1.0, PayoutRow, (0, 0))],
                     requests := db.requests[OfPayout(0, HK) := Request(HK, 1.0, tc, 1.0, Approved, None, 0.0)])
    ensures UnitsAt(db.ledger, HK, tc * US) == 0.0 ==>
              Settle(db, ch, 0, tc, map[], map[HK := 1.0])
              == db.(requests := db.requests[OfPayout(0, HK) := Request(HK, 1.0, tc, 0.0, Uncovered, None, 0.0)])
  {
    OneHotkey();
    NoHotkeys();
    WholeRao();
    hide HotkeysInOrder, FloorRao, UnitsAt, ReserveScale, PriceAt;
    var nets := map[HK := 1.0];
    var p: Price := 1.0;
    var none: map<Entity, real> := map[];
    assert none.Keys == {};
    assert ReservePay(db, ch, 0, tc, none) == db;
    var es := [HK];
    assert es[..0] == [];
    assert PayoutAll(db, 0, tc, nets, es, p) == PayoutOne(PayoutAll(db, 0, tc, nets, [], p), 0, tc, HK, 1.0, p);
  }

  /** The cycle's payout is approved when the balance at the close is one alpha, uncovered when it is nothing. */
  lemma RaceSettles(db: Db)
    requires OfPayout(0, HK) !in db.requests && Payout(0, HK) !in db.ledger
    ensures UnitsAt(db.ledger, HK, 5220 * US) == 1.0 ==> PayoutStatus(Settle(db, RACE_CHAIN, 0, 5220, map[], map[HK := 1.0])) == Some(Approved)
    ensures UnitsAt(db.ledger, HK, 5220 * US) == 0.0 ==> PayoutStatus(Settle(db, RACE_CHAIN, 0, 5220, map[], map[HK := 1.0])) == Some(Uncovered)
    ensures UnitsAt(db.ledger, HK, 5220 * US) == 0.0 ==> Settle(db, RACE_CHAIN, 0, 5220, map[], map[HK := 1.0]).ledger == db.ledger
  {
    OnePayout(db, RACE_CHAIN, 5220);
    hide UnitsAt, Settle;
  }

  lemma WholeRao()
    ensures FloorRao(1.0) == 1.0 && FloorRao(0.0) == 0.0
  {
  }

  lemma Balances()
    ensures UnitsAt(map[], HK, 5220 * US) == 0.0
    ensures UnitsAt(map[Dep(DEPOSIT.key) := CREDIT], HK, 5220 * US) == 1.0
  {
    var l := map[Dep(DEPOSIT.key) := CREDIT];
    assert l.Keys == {Dep(DEPOSIT.key)};
    SumTake(l.Keys, UnitsTerm(l, HK, 5220 * US), Dep(DEPOSIT.key));
    assert l.Keys - {Dep(DEPOSIT.key)} == {};
  }

  lemma Together(first: Step, second: Step, mid: State, end: State)
    requires Enabled(RACE, Start(RACE), first) && Do(RACE, Start(RACE), first) == mid
    requires Enabled(RACE, mid, second) && Do(RACE, mid, second) == end
    ensures Leads(RACE, [first, second], end)
  {
    hide Enabled, Do;
    var start: seq<Step> := [];
    assert Leads(RACE, start, Start(RACE));
    OneMore(RACE, start, Start(RACE), first);
    assert start + [first] == [first];
    OneMore(RACE, [first], mid, second);
    assert [first] + [second] == [first, second];
  }

  lemma PhaseAAlone() returns (mid: State)
    ensures Enabled(RACE, Start(RACE), DoPhaseA) && Do(RACE, Start(RACE), DoPhaseA) == mid
    ensures mid.db == EmptyDb.(ledger := map[Dep(DEPOSIT.key) := CREDIT], credit := {5400})
    ensures mid.settled == 0 && mid.undecided == {}
  {
    hide PhaseA, Enabled, Do;
    RacePhaseA(EmptyDb);
    RaceCreditStep(Start(RACE));
    mid := Do(RACE, Start(RACE), DoPhaseA);
  }

  /** At the first checkpoint, with nothing checked, the settlement is enabled. */
  lemma RaceSettleStep(st: State)
    requires st.db.checks == map[] && st.settled == 0 && st.undecided == {}
    ensures Enabled(RACE, st, DoSettle)
    ensures var n := Do(RACE, st, DoSettle);
            n.db == Settle(st.db, RACE_CHAIN, 0, 5220, map[], map[HK := 1.0]) && n.settled == 1 && n.undecided == {}
            && n.db.checks == map[] && n.db.credit == st.db.credit
  {
    hide Settle;
    SettleFrame(st.db, RACE_CHAIN, 0, 5220, map[], map[HK := 1.0]);
  }

  lemma SettleAfter(mid: State) returns (end: State)
    requires mid.db.ledger == map[Dep(DEPOSIT.key) := CREDIT] && mid.db.requests == map[] && mid.db.checks == map[]
    requires mid.db.credit == {5400} && mid.settled == 0 && mid.undecided == {}
    ensures Enabled(RACE, mid, DoSettle) && Do(RACE, mid, DoSettle) == end
    ensures PayoutStatus(end.db) == Some(Approved) && AtEnd(end)
  {
    hide Settle, UnitsAt, PayoutStatus, Enabled, Do;
    RaceSettles(mid.db);
    Balances();
    RaceSettleStep(mid);
    end := Do(RACE, mid, DoSettle);
  }

  /** Phase A and the settlement are done, the check is not. */
  ghost predicate AtEnd(st: State)
  {
    st.db.checks == map[] && st.db.credit == {5400} && st.settled == 1 && st.undecided == {}
  }

  /** Phase A first: the payout is covered. */
  lemma DepositFirst() returns (end: State)
    ensures Leads(RACE, [DoPhaseA, DoSettle], end) && PayoutStatus(end.db) == Some(Approved)
    ensures AtEnd(end)
  {
    hide Enabled, Do, Leads, PayoutStatus;
    var mid := PhaseAAlone();
    end := SettleAfter(mid);
    Together(DoPhaseA, DoSettle, mid, end);
  }

  lemma SettleAlone() returns (mid: State)
    ensures Enabled(RACE, Start(RACE), DoSettle) && Do(RACE, Start(RACE), DoSettle) == mid
    ensures mid.db.ledger == map[] && mid.db.checks == map[] && mid.db.credit == {} && mid.settled == 1 && mid.undecided == {}
    ensures PayoutStatus(mid.db) == Some(Uncovered)
  {
    hide Settle, UnitsAt, PayoutStatus, Enabled, Do;
    RaceSettles(EmptyDb);
    Balances();
    RaceSettleStep(Start(RACE));
    mid := Do(RACE, Start(RACE), DoSettle);
  }

  /** Settlement first: the same payout is uncovered. */
  lemma SettleFirst() returns (end: State)
    ensures Leads(RACE, [DoSettle, DoPhaseA], end) && PayoutStatus(end.db) == Some(Uncovered)
    ensures AtEnd(end)
  {
    hide UnitsAt, Leads, Enabled, Do, PhaseA;
    var mid := SettleAlone();
    RacePhaseA(mid.db);
    RaceCreditStep(mid);
    end := Do(RACE, mid, DoPhaseA);
    Together(DoSettle, DoPhaseA, mid, end);
  }

  lemma RaceCreditStep(st: State)
    requires st.db.checks == map[] && st.db.credit == {}
    ensures Enabled(RACE, st, DoPhaseA)
    ensures Do(RACE, st, DoPhaseA) == st.(db := PhaseA(st.db, RACE.w, 5400).(credit := {5400}))
  {
    hide PhaseA, MaxOr;
    NextAtStart(RACE);
    assert Next(st.db, 5400) == 5400;
  }

  /** Two runs that have come equally far, over the same inputs, with different tables. */
  lemma SettlementRaces() returns (x: State, y: State)
    ensures WellSet(RACE) && Leads(RACE, [DoPhaseA, DoSettle], x) && Leads(RACE, [DoSettle, DoPhaseA], y)
    ensures SameStage(RACE, x, y) && x.undecided == y.undecided
    ensures x.db != y.db
  {
    hide Leads, WellSet;
    RaceIsWellSet();
    x := DepositFirst();
    y := SettleFirst();
  }
}
