/**
 A release claim received by the checkpoint that covers its payout's close is dropped when phase A runs before the
 settlement (markets_vault.py:193-202, 384-388): the transfer out of the vault then has no release on the books, and
 the checkpoint is found short. So the rule that claims wait for the checkpoint cannot be loosened.
 */
module VaultEarly {
  import opened Wrappers
  import opened Sums
  import opened Sorting
  import opened Vault
  import opened VaultRun
  import opened VaultSafety
  import opened VaultSchedule
  import opened VaultReplay
  import opened VaultSolvency
  import opened VaultCustody
  import opened VaultRelease
  import opened VaultRace

  // ---------------------------------------------------------------- the setup

  /** The deposit, received at the close. */
  function Stakes(due: int): Claim
  {
    Claim(Key(0, 0), Deposit, 0, 1.0, due, 0, OfClaim(Key(0, 0)), 0, due * US)
  }

  /** The claim that the payout of the first cycle was sent. */
  function Claims1(due: int, t: int): Claim
  {
    Claim(Key(1, 0), Release, 1, 1.0, due, 1, OfPayout(0, HK), 0, t)
  }

  /** One alpha comes in and goes out in the block of the close; a block is a second, and the price is one. */
  function EarlyChain(due: int): Chain
  {
    Chain((t: int) => Some(t), (b: int) => b, (b: int) => Some(1.0 as Price),
          (x: Extrinsic, hk: nat) => if x == (due, 0) && hk == 0 then 1.0 else 0.0,
          (x: Extrinsic, e: Entity) => if x == (due, 1) && e == HK then 1.0 else 0.0,
          (x: Extrinsic) => 0.0, (b: int) => 0.0)
  }

  function EarlySetup(due: int, t: int): Setup
  {
    var origin := due - GRACE_S - 4320;
    Setup(World([Stakes(due), Claims1(due, t)], EarlyChain(due), EvenMarket(origin)), GridCeil(due), EvenStarts(origin),
          (n: nat) => map[], (n: nat) => map[HK := 1.0], {})
  }

  function EarlyCustodian(due: int): Custodian
  {
    Custodian({(due, 0)}, (x: Extrinsic) => 1.0, {(due, 1)}, (x: Extrinsic) => OfPayout(0, HK))
  }

  lemma EarlyIsWellSet(due: int, t: int)
    ensures WellSet(EarlySetup(due, t)) && OwnKeys(EarlySetup(due, t)) && CloseOf(EarlySetup(due, t), 0) == due
  {
    EvenCalendar(EarlySetup(due, t), due - GRACE_S - 4320);
    GridCeilOnGrid(due);
    hide Calendar, GridCeil;
  }

  lemma EarlyPrices(due: int)
    ensures PriceNeverFalls(EarlyChain(due))
  {
  }

  lemma OneShare(x: Extrinsic, f: Extrinsic -> real, b: int)
    requires f(x) == 1.0
    ensures Sum(UpTo({x}, b), f) == if x.0 <= b then 1.0 else 0.0
  {
    if x.0 <= b {
      assert UpTo({x}, b) == {x};
      SumTake({x}, f, x);
      assert {x} - {x} == {};
    } else {
      assert UpTo({x}, b) == {};
    }
  }

  /** What comes in goes out in the same block. */
  lemma EarlyMoves(due: int)
    ensures Moves(EarlyChain(due), EarlyCustodian(due))
  {
    var ch, cu := EarlyChain(due), EarlyCustodian(due);
    forall b ensures SharesHeld(ch, cu, b) == 0.0 {
      OneShare((due, 0), SharesIn(ch, cu), b);
      OneShare((due, 1), SharesOut(ch, cu), b);
    }
    forall b ensures ToAlpha(SharesHeld(ch, cu, b), 1.0) <= ch.stake(b) {
    }
    hide SharesHeld;
  }

  lemma EarlyFiled(due: int, t: int, rule: Rule)
    requires due * US <= t && rule(due, t)
    ensures Filed(EarlySetup(due, t), EarlyCustodian(due), rule, Claims1(due, t), (due, 1))
  {
    EarlyIsWellSet(due, t);
  }

  lemma EarlyFiles(due: int, t: int, rule: Rule)
    requires due * US <= t <= GridCeil(due) * US && rule(due, t)
    ensures Files(EarlySetup(due, t), EarlyCustodian(due), rule)
  {
    hide Filed, GridCeil;
    var s, cu := EarlySetup(due, t), EarlyCustodian(due);
    EarlyFiled(due, t, rule);
    forall x, cp | x in cu.outs && cp % STEP_S == 0 && s.w.ch.blockAt(cp).Some? && x.0 <= s.w.ch.blockAt(cp).value
      ensures FiledBy(s, cu, rule, x, cp)
    {
      GridCeilIsLeast(due, cp);
      assert Filed(s, cu, rule, Claims1(due, t), x) && Claims1(due, t).tRecv <= cp * US;
    }
  }

  // ---------------------------------------------------------------- the run

  lemma CpCovers(due: int)
    ensures GridCeil(due) - STEP_S < due <= GridCeil(due)
  {
    GridCeilOnGrid(due);
    GridCeilIsLeast(due, GridCeil(due));
    GridCeilIsLeast(due, GridCeil(due) - STEP_S);
  }

  lemma EarlySpan(due: int, t: int)
    requires due * US <= t <= GridCeil(due) * US
    ensures var cs, cp := [Stakes(due), Claims1(due, t)], GridCeil(due);
            && Claims(cs, {Deposit}, cp) == [Stakes(due)] && Claims(cs, {Release}, cp) == [Claims1(due, t)]
            && Claims(cs, {Sweep}, cp) == [] && Claims(cs, {Withdraw, Exit}, cp) == []
  {
    CpCovers(due);
    hide GridCeil, Sort, Filter;
    var x, y, cp := Stakes(due), Claims1(due, t), GridCeil(due);
    assert InSpan(x, cp) && InSpan(y, cp);
    OfTwo(OfKinds({Deposit}, cp), x, y);
    OfTwo(OfKinds({Release}, cp), x, y);
    OfTwo(OfKinds({Sweep}, cp), x, y);
    OfTwo(OfKinds({Withdraw, Exit}, cp), x, y);
    OneSorted(x);
    OneSorted(y);
  }

  lemma OfTwo(keep: Claim -> bool, x: Claim, y: Claim)
    ensures Filter(keep, [x, y]) == if keep(x) then (if keep(y) then [x, y] else [x]) else if keep(y) then [y] else []
  {
    assert [x, y] == [x] + [y];
    FilterConcat(keep, [x], [y]);
    FilterOne(keep, x);
    FilterOne(keep, y);
  }

  lemma OneSorted(c: Claim)
    ensures Sort(ClaimLeq, [c]) == [c] && Sort(ClaimLeq, []) == []
  {
    assert [c][..0] == [];
  }

  function StakeRow(due: int): Row
  {
    Row(due * US, HK, 1.0, 1.0, DepositRow, (due, 0))
  }

  /** Phase A credits the deposit and drops the claim: its request is not open yet. */
  lemma DropsTheClaim(due: int, t: int)
    requires due * US <= t <= GridCeil(due) * US
    ensures PhaseA(EmptyDb, EarlySetup(due, t).w, GridCeil(due)) == EmptyDb.(ledger := map[Dep(Key(0, 0)) := StakeRow(due)])
  {
    EarlySpan(due, t);
    hide Claims, GridCeil;
    var ch, c, r := EarlyChain(due), Stakes(due), Claims1(due, t);
    assert [c][..0] == [] && [r][..0] == [];
    var d := DepositOne(EmptyDb, ch, c);
    assert Deposits(EmptyDb, ch, [c]) == DepositOne(Deposits(EmptyDb, ch, []), ch, c) == d;
    assert Releases(d, ch, [r]) == ReleaseOne(Releases(d, ch, []), ch, r) == d;
  }

  lemma StakeBalance(due: int)
    ensures UnitsAt(map[Dep(Key(0, 0)) := StakeRow(due)], HK, due * US) == 1.0
  {
    var l := map[Dep(Key(0, 0)) := StakeRow(due)];
    assert l.Keys == {Dep(Key(0, 0))};
    SumTake(l.Keys, UnitsTerm(l, HK, due * US), Dep(Key(0, 0)));
    assert l.Keys - {Dep(Key(0, 0))} == {};
  }

  function PaidLedger(due: int): Ledger
  {
    map[Dep(Key(0, 0)) := StakeRow(due), Payout(0, HK) := Row(due * US, HK, -1.0, -1.0, PayoutRow, (0, 0))]
  }

  function PaidRequests(due: int): map<ReqKey, Request>
  {
    map[OfPayout(0, HK) := Request(HK, 1.0, due, 1.0, Approved, None, 0.0)]
  }

  /** The tables once the claim is dropped and the payout debited. */
  function PaidDb(due: int): Db
  {
    Db(PaidLedger(due), PaidRequests(due), map[], map[], {GridCeil(due)})
  }

  lemma PayoutIsOpened(due: int, t: int)
    ensures Settle(Db(map[Dep(Key(0, 0)) := StakeRow(due)], map[], map[], map[], {GridCeil(due)}), EarlyChain(due), 0, due, map[], map[HK := 1.0])
            == PaidDb(due)
  {
    StakeBalance(due);
    OnePayout(Db(map[Dep(Key(0, 0)) := StakeRow(due)], map[], map[], map[], {GridCeil(due)}), EarlyChain(due), due);
    hide Settle, UnitsAt, GridCeil;
  }

  /** Nothing is held and one alpha is owed, while the stake is gone. */
  lemma OneIsOwed(due: int)
    ensures TotalAt(PaidLedger(due), GridCeil(due) * US) == 0.0 && PendingAlpha(PaidRequests(due), GridCeil(due)) == 1.0
  {
    CpCovers(due);
    hide GridCeil;
    var l, rs, cp := PaidLedger(due), PaidRequests(due), GridCeil(due);
    assert l.Keys == {Dep(Key(0, 0)), Payout(0, HK)};
    SumTake(l.Keys, TotalTerm(l, cp * US), Dep(Key(0, 0)));
    assert l.Keys - {Dep(Key(0, 0))} == {Payout(0, HK)};
    SumTake({Payout(0, HK)}, TotalTerm(l, cp * US), Payout(0, HK));
    assert {Payout(0, HK)} - {Payout(0, HK)} == {};
    assert rs.Keys == {OfPayout(0, HK)};
    SumTake(rs.Keys, PendingTerm(rs, cp), OfPayout(0, HK));
    assert rs.Keys - {OfPayout(0, HK)} == {};
  }

  lemma ChecksShort(due: int, t: int)
    requires due * US <= t <= GridCeil(due) * US
    ensures var cp, n := GridCeil(due), PhaseB(PaidDb(due), EarlySetup(due, t).w, GridCeil(due), GridCeil(due));
            cp in n.checks && n.checks[cp].short && n.requests == PaidRequests(due) && n.checks.Keys == {cp} && n.credit == {cp}
  {
    hide PhaseB, Claims, Defaults, CheckOf, EarlyChain, EvenMarket, TotalAt, PendingAlpha, PaidLedger, PaidRequests,
         GridCeil;
    var w, cp := EarlySetup(due, t).w, GridCeil(due);
    EarlySpan(due, t);
    OneIsOwed(due);
    NotYetDefault(due);
    QuietCheck(PaidDb(due), w, cp);
    PriceIsOne(due, cp);
    OwedIsShort(due, w.ch, cp);
  }

  lemma PriceIsOne(due: int, cp: int)
    ensures EarlyChain(due).price(cp) == Some(1.0 as Price) && EarlyChain(due).stake(cp) == 0.0
  {
  }

  lemma NotYetDefault(due: int)
    ensures Defaults(PaidRequests(due), GridCeil(due)) == PaidRequests(due)
  {
    CpCovers(due);
    hide GridCeil;
  }

  /** A check without claims. */
  lemma QuietCheck(db: Db, w: World, cp: int)
    requires Claims(w.claims, {Sweep}, cp) == [] && Claims(w.claims, {Withdraw, Exit}, cp) == [] && Defaults(db.requests, cp) == db.requests
    ensures PhaseB(db, w, cp, cp) == db.(checks := db.checks[cp := CheckOf(db, w.ch, cp, cp)])
  {
    hide Claims, Defaults, CheckOf;
  }

  lemma OwedIsShort(due: int, ch: Chain, cp: int)
    requires TotalAt(PaidLedger(due), cp * US) == 0.0 && PendingAlpha(PaidRequests(due), cp) == 1.0
    requires ch.price(cp) == Some(1.0 as Price) && ch.stake(cp) == 0.0
    ensures CheckOf(PaidDb(due), ch, cp, cp).short
  {
    hide TotalAt, PendingAlpha, PaidLedger, PaidRequests, GridCeil;
    assert ToAlpha(0.0, 1.0) == 0.0;
  }

  /** The run: phase A, the settlement, the check. */
  lemma EarlyRun(due: int, t: int) returns (st: State)
    requires due * US <= t <= GridCeil(due) * US
    ensures Leads(EarlySetup(due, t), [DoPhaseA, DoSettle, DoPhaseB], st)
    ensures !NoneShort(st.db) && st.db.requests == PaidRequests(due) && CreditedThrough(EarlySetup(due, t), st) == GridCeil(due)
  {
    hide PhaseA, PhaseB, Settle, MaxOr, Leads, WellSet, NoneShort, PaidRequests, PaidLedger, GridCeil, SettledThrough,
         StakeRow, EarlyChain, Enabled, Do;
    var s, cp := EarlySetup(due, t), GridCeil(due);
    var a := State(EmptyDb.(ledger := map[Dep(Key(0, 0)) := StakeRow(due)], credit := {cp}), 0, {});
    var b := State(PaidDb(due), 1, {});
    st := State(PhaseB(PaidDb(due), s.w, cp, cp), 1, {});
    EarlyA(due, t, a);
    EarlyS(due, t, a, b);
    EarlyB(due, t, b, st);
    var none: seq<Step> := [];
    StartsThere(s);
    OneMore(s, none, Start(s), DoPhaseA);
    assert none + [DoPhaseA] == [DoPhaseA];
    OneMore(s, [DoPhaseA], a, DoSettle);
    assert [DoPhaseA] + [DoSettle] == [DoPhaseA, DoSettle];
    OneMore(s, [DoPhaseA, DoSettle], b, DoPhaseB);
    assert [DoPhaseA, DoSettle] + [DoPhaseB] == [DoPhaseA, DoSettle, DoPhaseB];
    ChecksShort(due, t);
    EarlyEnd(due, t, st);
  }

  lemma StartsThere(s: Setup)
    ensures Leads(s, [], Start(s))
  {
  }

  lemma EarlyA(due: int, t: int, a: State)
    requires due * US <= t <= GridCeil(due) * US
    requires a == State(EmptyDb.(ledger := map[Dep(Key(0, 0)) := StakeRow(due)], credit := {GridCeil(due)}), 0, {})
    ensures var s := EarlySetup(due, t);
            Enabled(s, Start(s), DoPhaseA) && Do(s, Start(s), DoPhaseA) == a
  {
    DropsTheClaim(due, t);
    NextAtStart(EarlySetup(due, t));
    hide PhaseA, Next, GridCeil, StakeRow;
  }

  lemma EarlyS(due: int, t: int, a: State, b: State)
    requires a == State(EmptyDb.(ledger := map[Dep(Key(0, 0)) := StakeRow(due)], credit := {GridCeil(due)}), 0, {})
    requires b == State(PaidDb(due), 1, {})
    ensures var s := EarlySetup(due, t);
            Enabled(s, a, DoSettle) && Do(s, a, DoSettle) == b
  {
    PayoutIsOpened(due, t);
    CpCovers(due);
    EarlyIsWellSet(due, t);
    hide Settle, GridCeil, StakeRow, WellSet, PaidLedger, PaidRequests, EarlyChain;
    var s := EarlySetup(due, t);
    assert (due - 1) / STEP_S * STEP_S <= due - 1;
    assert CheckpointsDoneBefore(a.db, s.first, due);
    assert a.db == Db(map[Dep(Key(0, 0)) := StakeRow(due)], map[], map[], map[], {GridCeil(due)});
  }

  lemma EarlyB(due: int, t: int, b: State, st: State)
    requires b == State(PaidDb(due), 1, {}) && st == State(PhaseB(PaidDb(due), EarlySetup(due, t).w, GridCeil(due), GridCeil(due)), 1, {})
    ensures var s := EarlySetup(due, t);
            Enabled(s, b, DoPhaseB) && Do(s, b, DoPhaseB) == st
  {
    CpCovers(due);
    EarlyIsWellSet(due, t);
    hide PhaseB, GridCeil, Next, SettledThrough, Calendar, Keyed, PaidLedger, PaidRequests, EarlyChain;
    var s, cp := EarlySetup(due, t), GridCeil(due);
    assert CloseOf(s, 1) == due + 4320;
    SettledMeansClosesLater(s, 1, cp);
    NoChecksYet(b.db, s.first);
    BlockIsKnown(due, cp);
  }

  lemma NoChecksYet(db: Db, first: int)
    requires db.checks == map[]
    ensures Next(db, first) == first
  {
    assert db.checks.Keys == {};
  }

  lemma BlockIsKnown(due: int, cp: int)
    ensures EarlyChain(due).blockAt(cp) == Some(cp)
  {
  }

  lemma EarlyEnd(due: int, t: int, st: State)
    requires st.db.checks.Keys == {GridCeil(due)} && st.db.credit == {GridCeil(due)}
    requires GridCeil(due) in st.db.checks && st.db.checks[GridCeil(due)].short
    ensures !NoneShort(st.db) && CreditedThrough(EarlySetup(due, t), st) == GridCeil(due)
  {
    hide GridCeil;
    var m := MaxOr(st.db.checks.Keys, GridCeil(due) - STEP_S);
    assert GridCeil(due) in st.db.checks.Keys;
    assert m == GridCeil(due);
  }

  // ---------------------------------------------------------------- the exact rule

  /** Whoever keeps to the rule is never found short. */
  ghost predicate KeepsSolvent(rule: Rule)
  {
    forall s, cu, steps, st ::
      Honest(s, cu, rule) && PriceNeverFalls(s.w.ch) && Leads(s, steps, st) && PaysApproved(s, cu, rule, st) ==> NoneShort(st.db)
  }

  /** A rule that lets one claim come too early leaves some honest custodian short. */
  lemma EarlyReleaseIsShort(rule: Rule, due: int, t: int) returns (s: Setup, cu: Custodian, steps: seq<Step>, st: State)
    requires due * US <= t <= GridCeil(due) * US && rule(due, t)
    ensures Honest(s, cu, rule) && PriceNeverFalls(s.w.ch) && Leads(s, steps, st) && PaysApproved(s, cu, rule, st) && !NoneShort(st.db)
  {
    hide WellSet, OwnKeys, Moves, Files, PriceNeverFalls, Leads, NoneShort, CreditedThrough, GridCeil, Filed;
    s, cu, steps := EarlySetup(due, t), EarlyCustodian(due), [DoPhaseA, DoSettle, DoPhaseB];
    st := EarlyRun(due, t);
    EarlyIsWellSet(due, t);
    EarlyPrices(due);
    EarlyMoves(due);
    EarlyFiles(due, t, rule);
  }

  /**
   A rule for release claims keeps every honest custodian solvent exactly when it lets no claim be received before the
   first checkpoint at or after the request's due time has passed: after the checkpoint of a withdrawal, and after the
   one that covers the close of a payout's cycle.
   */
  lemma SolventIffClaimsWait(rule: Rule)
    ensures KeepsSolvent(rule) <==> WaitsForCheckpoint(rule)
  {
    hide Honest, PriceNeverFalls, Leads, PaysApproved, NoneShort, GridCeil;
    if WaitsForCheckpoint(rule) {
      forall s, cu, steps, st | Honest(s, cu, rule) && PriceNeverFalls(s.w.ch) && Leads(s, steps, st) && PaysApproved(s, cu, rule, st)
        ensures NoneShort(st.db)
      {
        NeverShort(s, cu, rule, steps, st);
      }
    } else {
      var due, t :| due * US <= t && rule(due, t) && t <= GridCeil(due) * US;
      var s, cu, steps, st := EarlyReleaseIsShort(rule, due, t);
    }
  }
}
