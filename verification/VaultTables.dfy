/**
 The vault's tables and the passes over them (markets_vault.py:129-524): each method reads and updates the tables
 as the source does, and leaves them as the ledger functions say.
 */
module VaultTables {
  import opened Wrappers
  import opened Sums
  import opened Vault
  import opened VaultRun
  import opened VaultReplay

  class Tables {
    var ledger: Ledger
    var requests: map<ReqKey, Request>
    var exits: map<(Entity, int), ExitRow>
    var checks: map<int, Check>
    var credit: set<int>

    constructor ()
      ensures Value() == EmptyDb
    {
      ledger, requests, exits, checks, credit := map[], map[], map[], map[], {};
    }

    ghost function Value(): Db
      reads this
    {
      Db(ledger, requests, exits, checks, credit)
    }

    // -------------------------------------------------------------- reads

    method UnitsOf(e: Entity, t: int) returns (u: real)
      ensures u == UnitsAt(ledger, e, t)
    {
      u := SumOver(ledger.Keys, UnitsTerm(ledger, e, t));
    }

    method TotalUnits(t: int) returns (u: real)
      ensures u == TotalAt(ledger, t)
    {
      u := SumOver(ledger.Keys, TotalTerm(ledger, t));
    }

    method CreditedOf(e: Entity, t: int) returns (a: real)
      ensures a == CreditedBefore(ledger, e, t)
    {
      a := SumOver(ledger.Keys, CreditTerm(ledger, e, t));
    }

    method PendingOf(cp: int) returns (a: real)
      ensures a == PendingAlpha(requests, cp)
    {
      a := SumOver(requests.Keys, PendingTerm(requests, cp));
    }

    /** Emission the entities were paid and not yet credited. */
    method EmissionOutstanding(m: Market, cycle: int, t: int) returns (owed: map<Entity, real>)
      ensures owed == Outstanding(ledger, m, cycle, t)
    {
      hide CreditedBefore;
      owed := map[];
      var paid := m.paidThrough(cycle);
      var rest := paid.Keys;
      while rest != {}
        invariant rest <= paid.Keys
        invariant forall e :: e in owed <==> e in paid.Keys - rest && e != Reserve && paid[e] - CreditedBefore(ledger, e, t) >= RAO
        invariant forall e :: e in owed ==> owed[e] == paid[e] - CreditedBefore(ledger, e, t)
        decreases rest
      {
        var e :| e in rest;
        var credited := CreditedOf(e, t);
        if e != Reserve && paid[e] - credited >= RAO {
          owed := owed[e := paid[e] - credited];
        }
        rest := rest - {e};
      }
    }

    method TotalOwed(owed: map<Entity, real>) returns (tot: real)
      ensures tot == OwedTotal(owed)
    {
      tot := SumOver(owed.Keys, Amounts(owed));
    }

    method PositiveTotal(claims: map<Entity, real>) returns (tot: real)
      ensures tot == Sum(claims.Keys, PositivePart(claims))
    {
      tot := SumOver(claims.Keys, PositivePart(claims));
    }

    /** The largest `after_cycle` of the entity's exits by `t`. */
    method LastExit(e: Entity, t: int) returns (after: int)
      ensures after == ExitAfter(exits, e, t)
    {
      after := -1;
      ghost var afters := set k | k in exits && k.0 == e && k.1 <= t :: exits[k].afterCycle;
      var rest := exits.Keys;
      while rest != {}
        invariant rest <= exits.Keys
        invariant -1 <= after && (after == -1 || after in afters)
        invariant forall k :: k in exits && k !in rest && k.0 == e && k.1 <= t ==> exits[k].afterCycle <= after
        decreases rest
      {
        var k :| k in rest;
        if k.0 == e && k.1 <= t && after < exits[k].afterCycle {
          after := exits[k].afterCycle;
        }
        rest := rest - {k};
      }
    }

    method LockedOf(m: Market, e: Entity, t: int) returns (lk: real)
      ensures lk == Locked(Value(), m, e, t)
    {
      var row := m.lockRow(e, m.closedBy(t));
      if row.None? {
        return 0.0;
      }
      var after := LastExit(e, t);
      if after >= 0 && row.value.cycle <= after {
        return 0.0;
      }
      lk := Max(0.0, row.value.hwm - row.value.rcum);
    }

    /** The checkpoint after the last one checked. */
    method NextCheckpoint(first: int) returns (cp: int)
      ensures cp == Next(Value(), first)
    {
      var last := first - STEP_S;
      var rest := checks.Keys;
      while rest != {}
        invariant rest <= checks.Keys
        invariant first - STEP_S <= last && (last == first - STEP_S || last in checks)
        invariant forall c :: c in checks && c !in rest ==> c <= last
        decreases rest
      {
        ghost var some := Member(rest);
        var c :| c in rest;
        if last < c {
          last := c;
        }
        rest := rest - {c};
      }
      cp := last + STEP_S;
    }

    // -------------------------------------------------------------- phase A

    method PhaseA(w: World, cp: int)
      modifies this`ledger, this`requests
      ensures Value() == Vault.PhaseA(old(Value()), w, cp)
    {
      hide Claims;
      var cs := Claims(w.claims, {Deposit}, cp);
      for i := 0 to |cs|
        invariant Value() == Deposits(old(Value()), w.ch, cs[..i])
      {
        CreditDeposit(w.ch, cs[i]);
        assert cs[..i + 1][..i] == cs[..i];
      }
      assert cs[..|cs|] == cs;
      ghost var db := Value();
      var rs := Claims(w.claims, {Release}, cp);
      for i := 0 to |rs|
        invariant Value() == Releases(db, w.ch, rs[..i])
      {
        ApplyRelease(w.ch, rs[i]);
        assert rs[..i + 1][..i] == rs[..i];
      }
      assert rs[..|rs|] == rs;
    }

    method CreditDeposit(ch: Chain, c: Claim)
      modifies this`ledger
      ensures Value() == DepositOne(old(Value()), ch, c)
    {
      hide ToUnits, Timely, RefUsed;
      var ref := (c.block, c.ext);
      if RefUsed(ledger, DepositRow, ref) {
        return;
      }
      if !Timely(ch, c) {
        return;
      }
      var got, p := ch.depositAlpha(ref, c.hk), ch.price(c.block);
      var credited := Min(c.amount, got);
      if credited <= 0.0 || p.None? {
        return;
      }
      ledger := Post(ledger, Dep(c.key), Row(c.tRecv, Hotkey(c.hk), ToUnits(credited, p.value), credited, DepositRow, ref));
    }

    method ApplyRelease(ch: Chain, c: Claim)
      modifies this`requests
      ensures Value() == ReleaseOne(old(Value()), ch, c)
    {
      hide ReleasedWith;
      var x := (c.block, c.ext);
      if c.ref !in requests || requests[c.ref].status !in {Approved, Default} {
        return;
      }
      if ReleasedWith(requests, x) {
        return;
      }
      var req := requests[c.ref];
      var bt := ch.blockTime(c.block);
      if !(req.cp <= bt <= c.tRecv / US) {
        return;
      }
      var got := ch.releaseAlpha(x, req.entity);
      if got <= 0.0 {
        return;
      }
      requests := requests[c.ref := req.(status := Released, releasedBy := Some(x), releasedAlpha := got)];
    }

    // -------------------------------------------------------------- phase B

    method CreditSweeps(w: World, cp: int)
      modifies this`ledger
      ensures Value() == Sweeps(old(Value()), w, cp, Claims(w.claims, {Sweep}, cp))
    {
      hide Claims, SweepOne;
      var cs := Claims(w.claims, {Sweep}, cp);
      for i := 0 to |cs|
        invariant Value() == Sweeps(old(Value()), w, cp, cs[..i])
      {
        CreditSweep(w, cp, cs[i]);
        assert cs[..i + 1][..i] == cs[..i];
      }
      assert cs[..|cs|] == cs;
    }

    method CreditSweep(w: World, cp: int, c: Claim)
      modifies this`ledger
      ensures ledger == SweepOne(old(ledger), w, cp, c)
    {
      hide ToUnits, Timely, RefUsed, Part, Outstanding, HotkeysInOrder, OwedTotal;
      var ref := (c.block, c.ext);
      if RefUsed(ledger, EmissionRow, ref) {
        return;
      }
      if !Timely(w.ch, c) {
        return;
      }
      var got, p := w.ch.sweepAlpha(ref), w.ch.price(c.block);
      if got <= 0.0 || p.None? {
        return;
      }
      var owed := EmissionOutstanding(w.market, w.market.closedBy(cp), cp * US);
      var tot := TotalOwed(owed);
      var scale := if tot > 0.0 then Min(1.0, got / tot) else 0.0;
      assert scale == SweepScale(owed, got);
      var left := CreditShares(c, cp * US, owed, scale, p.value, got);
      if left > 0.0 && scale >= 1.0 {
        ledger := Post(ledger, Em(c.key, Reserve), Row(cp * US, Reserve, ToUnits(left, p.value), left, EmissionRow, ref));
      }
    }

    /** Credits each entity its share and says what is left. */
    method CreditShares(c: Claim, t: int, owed: map<Entity, real>, scale: real, p: Price, got: real) returns (left: real)
      modifies this`ledger
      ensures ledger == CreditAll(old(ledger), c, t, owed, HotkeysInOrder(owed.Keys), scale, p)
      ensures left == got - PartsOf(owed, HotkeysInOrder(owed.Keys), scale)
    {
      hide ToUnits, Part, HotkeysInOrder;
      var es := HotkeysInOrder(owed.Keys);
      left := got;
      for i := 0 to |es|
        invariant ledger == CreditAll(old(ledger), c, t, owed, es[..i], scale, p)
        invariant left == got - PartsOf(owed, es[..i], scale)
      {
        var a := Part(Amounts(owed)(es[i]), scale);
        assert es[..i + 1][..i] == es[..i];
        if a > 0.0 {
          ledger := Post(ledger, Em(c.key, es[i]), Row(t, es[i], ToUnits(a, p), a, EmissionRow, (c.block, c.ext)));
          left := left - a;
        }
      }
      assert es[..|es|] == es;
    }

    method ApplyRequest(w: World, cp: int, price: Option<Price>, c: Claim)
      modifies this`ledger, this`requests, this`exits
      ensures Value() == RequestOne(old(Value()), w, cp, price, c)
    {
      hide ToUnits, ToAlpha, FloorRao, UnitsAt, Locked;
      var e := Hotkey(c.hk);
      if price.None? {
        requests := AddRequest(requests, OfClaim(c.key), Request(e, c.amount, cp, 0.0, Refused, None, 0.0));
        return;
      }
      var p := price.value;
      var units := UnitsOf(e, cp * US);
      var bal := ToAlpha(units, p);
      var lk := LockedOf(w.market, e, cp);
      lk := Min(lk, Max(bal, 0.0));
      var opn := w.market.open(e, cp);
      var avail := Max(0.0, bal - lk - opn);
      assert RoomOf(old(Value()), w.market, e, cp, p) == Room(bal, lk, opn, avail);
      hide RoomOf;
      var ok := FloorRao(Min(if c.kind == Exit then avail else c.amount, avail));
      if ok > 0.0 {
        ledger := Post(ledger, Wd(c.key), Row(cp * US, e, -ToUnits(ok, p), -ok, WithdrawRow, (0, 0)));
      }
      requests := AddRequest(requests, OfClaim(c.key), Request(e, c.amount, cp, ok, if ok > 0.0 then Approved else Refused, None, 0.0));
      assert Value() == ApproveOne(old(Value()), w, cp, p, c);
      if c.kind == Exit {
        TakeExit(w.market, cp, p, c, lk);
      }
    }

    /** Moves the locked amount to the reserve and records the exit. */
    method TakeExit(m: Market, cp: int, p: Price, c: Claim, lk: real)
      modifies this`ledger, this`exits
      ensures Value() == ExitOne(old(Value()), m, cp, p, c, lk)
    {
      hide ToUnits;
      var e := Hotkey(c.hk);
      if lk > 0.0 {
        var u := ToUnits(lk, p);
        ledger := Post(ledger, Forfeit(c.key), Row(cp * US, e, -u, -lk, ForfeitRow, (0, 0)));
        ledger := Post(ledger, ForfeitIn(c.key), Row(cp * US, Reserve, u, lk, ForfeitRow, (0, 0)));
      }
      if (e, cp) !in exits {
        exits := exits[(e, cp) := ExitRow(m.closedBy(cp), lk)];
      }
    }

    method CheckSolvency(ch: Chain, cp: int, blk: int)
      modifies this`checks
      ensures checks == old(checks)[cp := CheckOf(old(Value()), ch, cp, blk)]
    {
      hide TotalAt, PendingAlpha, ToAlpha;
      var price := ch.price(blk);
      var units := TotalUnits(cp * US);
      var pending := PendingOf(cp);
      var owed := (if price.Some? then ToAlpha(units, price.value) else 0.0) + pending;
      checks := checks[cp := Check(ch.stake(blk), owed, ch.stake(blk) < owed - SOLVENCY_TOL)];
    }

    method PhaseB(w: World, cp: int, blk: int)
      modifies this`ledger, this`requests, this`exits, this`checks
      ensures Value() == Vault.PhaseB(old(Value()), w, cp, blk)
    {
      hide Claims, RequestOne, Sweeps, CheckOf, Defaults;
      var price := w.ch.price(blk);
      CreditSweeps(w, cp);
      ghost var db := Value();
      var cs := Claims(w.claims, {Withdraw, Exit}, cp);
      for i := 0 to |cs|
        invariant Value() == Requests(db, w, cp, price, cs[..i])
        invariant checks == old(checks) && credit == old(credit)
      {
        ApplyRequest(w, cp, price, cs[i]);
        assert cs[..i + 1][..i] == cs[..i];
      }
      assert cs[..|cs|] == cs;
      requests := Defaults(requests, cp);
      CheckSolvency(w.ch, cp, blk);
    }

    // -------------------------------------------------------------- settlement

    method PayReserve(ch: Chain, cycle: nat, tc: int, claims: map<Entity, real>)
      modifies this`ledger
      ensures Value() == ReservePay(old(Value()), ch, cycle, tc, claims)
    {
      hide ToUnits, ToAlpha, FloorRao, UnitsAt, HotkeysInOrder, PriceAt;
      var price := PriceAt(ch, tc);
      if price.None? {
        return;
      }
      var p := price.value;
      var units := UnitsOf(Reserve, tc * US - 1);
      var have := ToAlpha(units, p);
      var tot := PositiveTotal(claims);
      var scale := if have <= 0.0 || tot <= 0.0 then 0.0 else Min(1.0, have / tot);
      assert scale == ReserveScale(ledger, tc, claims, p);
      hide ReserveScale, ReserveOne, ReservePart;
      var es := HotkeysInOrder(claims.Keys);
      for i := 0 to |es|
        invariant ledger == ReserveAll(old(ledger), cycle, tc, claims, es[..i], scale, p)
      {
        assert es[..i + 1][..i] == es[..i];
        PayClaim(cycle, tc, es[i], ReservePart(claims, es[i], scale), p);
      }
      assert es[..|es|] == es;
    }

    method PayClaim(cycle: nat, tc: int, e: Entity, a: real, p: Price)
      modifies this`ledger
      ensures ledger == ReserveOne(old(ledger), cycle, tc, e, a, p)
    {
      hide ToUnits;
      if a > 0.0 {
        var u := ToUnits(a, p);
        ledger := Post(ledger, Rsv(cycle, e), Row(tc * US, Reserve, -u, -a, ReservePayRow, (0, 0)));
        ledger := Post(ledger, RsvIn(cycle, e), Row(tc * US, e, u, a, ReservePayRow, (0, 0)));
      }
    }

    method DebitPayouts(ch: Chain, cycle: nat, tc: int, nets: map<Entity, real>)
      modifies this`ledger, this`requests
      ensures Value() == PayoutDebit(old(Value()), ch, cycle, tc, nets)
    {
      hide HotkeysInOrder, PriceAt, PayoutOne;
      var price := PriceAt(ch, tc);
      if price.None? {
        return;
      }
      var es := HotkeysInOrder(nets.Keys);
      for i := 0 to |es|
        invariant Value() == PayoutAll(old(Value()), cycle, tc, nets, es[..i], price.value)
      {
        DebitPayout(cycle, tc, es[i], Amounts(nets)(es[i]), price.value);
        assert es[..i + 1][..i] == es[..i];
      }
      assert es[..|es|] == es;
    }

    method DebitPayout(cycle: nat, tc: int, e: Entity, net: real, p: Price)
      modifies this`ledger, this`requests
      ensures Value() == PayoutOne(old(Value()), cycle, tc, e, net, p)
    {
      hide ToUnits, ToAlpha, FloorRao, UnitsAt;
      if FloorRao(net) <= 0.0 {
        return;
      }
      var units := UnitsOf(e, tc * US);
      var a := FloorRao(Min(FloorRao(net), Max(ToAlpha(units, p), 0.0)));
      if a > 0.0 {
        ledger := Post(ledger, Payout(cycle, e), Row(tc * US, e, -ToUnits(a, p), -a, PayoutRow, (0, 0)));
      }
      requests := AddRequest(requests, OfPayout(cycle, e),
                             Request(e, FloorRao(net), tc, a, if a > 0.0 then Approved else Uncovered, None, 0.0));
    }

    // -------------------------------------------------------------- the pass

    ghost function StateWith(settled: nat, undecided: set<Bet>): State
      reads this
    {
      State(Value(), settled, undecided)
    }

    /** One call of the pass: checkpoint after checkpoint up to `upto`, while the market is ready. */
    method VaultPass(s: Setup, settled: nat, undecided: set<Bet>, upto: int) returns (done: nat)
      modifies this
      ensures StateWith(settled, undecided) == Pass(s, old(StateWith(settled, undecided)), upto)
    {
      hide Vault.PhaseA, Vault.PhaseB, PhaseBReady, MaxOr;
      done := 0;
      ghost var goal := Pass(s, StateWith(settled, undecided), upto);
      var cp := NextCheckpoint(s.first);
      while cp <= upto
        invariant cp == Next(Value(), s.first)
        invariant Pass(s, StateWith(settled, undecided), upto) == goal
        decreases upto - cp + STEP_S
      {
        var blk := s.w.ch.blockAt(cp);
        if blk.None? {
          return;
        }
        ghost var before := StateWith(settled, undecided);
        PassAdvances(s, before, cp, blk.value);
        PhaseACredits(s, before, cp);
        if cp !in credit {
          PhaseA(s.w, cp);
          credit := credit + {cp};
          done := done + 1;
        }
        if !PhaseBReady(s, State(Db(ledger, requests, exits, checks, credit), settled, undecided), cp) {
          return;
        }
        PhaseB(s.w, cp, blk.value);
        done := done + 1;
        cp := NextCheckpoint(s.first);
      }
    }
  }
}
