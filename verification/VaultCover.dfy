/**
 What phase B leaves an entity (markets_vault.py:413-455): a withdrawal never takes what is locked or open, and an
 exit from a covered entity leaves its open amount, to within one rao.
 */
module VaultCover {
  import opened Wrappers
  import opened Vault
  import opened VaultLaws
  import opened VaultBalances
  import opened VaultRun
  import opened VaultSafety

  ghost function Bal(db: Db, e: Entity, cp: int, p: Price): real
  {
    ToAlpha(UnitsAt(db.ledger, e, cp * US), p)
  }

  /** The balance holds what is locked and what is open. */
  ghost predicate Covered(db: Db, m: Market, e: Entity, cp: int, p: Price)
  {
    Locked(db, m, e, cp) + m.open(e, cp) <= Bal(db, e, cp, p)
  }

  /** The balance is the open amount, to within one rao, and nothing is locked. */
  ghost predicate HoldsOpenOnly(db: Db, m: Market, e: Entity, cp: int, p: Price)
  {
    Locked(db, m, e, cp) == 0.0 && m.open(e, cp) <= Bal(db, e, cp, p) < m.open(e, cp) + RAO
  }

  /** Settle rows are read by cycle, and cycles start at unix times. */
  ghost predicate MarketOk(m: Market, cp: int)
  {
    0 <= m.closedBy(cp) && forall e, c :: m.lockRow(e, c).Some? ==> m.lockRow(e, c).value.cycle <= c
  }

  /** The exits recorded at this checkpoint restart the carry after the cycle it closes. */
  ghost predicate ExitsAt(db: Db, m: Market, cp: int)
  {
    forall e :: (e, cp) in db.exits ==> db.exits[(e, cp)].afterCycle == m.closedBy(cp)
  }

  // ---------------------------------------------------------------- what is locked

  lemma ExitUnlocks(db: Db, m: Market, e: Entity, cp: int)
    requires MarketOk(m, cp) && (e, cp) in db.exits && db.exits[(e, cp)].afterCycle == m.closedBy(cp)
    ensures Locked(db, m, e, cp) == 0.0
  {
    var afters := set k | k in db.exits && k.0 == e && k.1 <= cp :: db.exits[k].afterCycle;
    assert m.closedBy(cp) in afters;
    assert ExitAfter(db.exits, e, cp) >= m.closedBy(cp);
  }

  lemma OtherExitsLock(db: Db, n: Db, m: Market, e: Entity, cp: int)
    requires forall k :: k in db.exits ==> k in n.exits && n.exits[k] == db.exits[k]
    requires forall k :: k in n.exits && k !in db.exits ==> k.0 != e
    ensures Locked(n, m, e, cp) == Locked(db, m, e, cp)
  {
    var before := set k | k in db.exits && k.0 == e && k.1 <= cp :: db.exits[k].afterCycle;
    var after := set k | k in n.exits && k.0 == e && k.1 <= cp :: n.exits[k].afterCycle;
    forall x | x in after ensures x in before {
      var k :| k in n.exits && k.0 == e && k.1 <= cp && n.exits[k].afterCycle == x;
      assert k in db.exits;
    }
    forall x | x in before ensures x in after {
      var k :| k in db.exits && k.0 == e && k.1 <= cp && db.exits[k].afterCycle == x;
      assert n.exits[k] == db.exits[k];
    }
    assert before == after;
  }

  lemma LockedNonNegative(db: Db, m: Market, e: Entity, cp: int)
    ensures Locked(db, m, e, cp) >= 0.0
  {
  }

  // ---------------------------------------------------------------- one request

  /** What a request does to the balances of hotkeys. */
  lemma RequestMoves(db: Db, w: World, cp: int, p: Price, c: Claim, e: Entity)
    requires NoRows(db, c.key) && UnitsAt(db.ledger, Hotkey(c.hk), cp * US) >= 0.0 && e.Hotkey?
    ensures var n, r := RequestOne(db, w, cp, Some(p), c), RoomOf(db, w.market, Hotkey(c.hk), cp, p);
            Bal(n, e, cp, p) == Bal(db, e, cp, p)
            - (if e == Hotkey(c.hk) then ApprovedFor(r, c) + (if c.kind == Exit then r.lk else 0.0) else 0.0)
  {
    hide RoomOf, ApprovedFor, ToUnits, ToAlpha, UnitsAt;
    var h := Hotkey(c.hk);
    var r := RoomOf(db, w.market, h, cp, p);
    var ok := ApprovedFor(r, c);
    RoomBounds(db, w, h, cp, p, c);
    var l1 := ApproveOne(db, w, cp, p, c).ledger;
    if ok > 0.0 {
      Spend(db.ledger, Wd(c.key), Row(cp * US, h, -ToUnits(ok, p), -ok, WithdrawRow, (0, 0)), e, cp * US, p, ok);
    }
    if c.kind == Exit && r.lk > 0.0 {
      var u := ToUnits(r.lk, p);
      var out := Row(cp * US, h, -u, -r.lk, ForfeitRow, (0, 0));
      Spend(l1, Forfeit(c.key), out, e, cp * US, p, r.lk);
      PostUnits(Post(l1, Forfeit(c.key), out), ForfeitIn(c.key), Row(cp * US, Reserve, u, r.lk, ForfeitRow, (0, 0)), e, cp * US);
    }
  }

  lemma Spend(l: Ledger, k: LKey, row: Row, e: Entity, t: int, p: Price, a: real)
    requires k !in l && row.t <= t && row.alpha == -a && row.units == -ToUnits(a, p)
    ensures ToAlpha(UnitsAt(Post(l, k, row), e, t), p) == ToAlpha(UnitsAt(l, e, t), p) - (if e == row.entity then a else 0.0)
  {
    hide UnitsAt, ToUnits, ToAlpha;
    UnitsNegate(a, p);
    PostUnits(l, k, row, e, t);
    if e == row.entity {
      PostAlpha(l, k, row, t, p);
    }
  }

  /** A request is approved for all that is asked and can be taken, rounded down to a rao, and is debited exactly that,
      with what is locked on top when it is an exit. */
  lemma RequestTakesWhatItCan(db: Db, w: World, cp: int, p: Price, c: Claim)
    requires NoRows(db, c.key) && UnitsAt(db.ledger, Hotkey(c.hk), cp * US) >= 0.0
    ensures var e, n, r := Hotkey(c.hk), RequestOne(db, w, cp, Some(p), c), RoomOf(db, w.market, Hotkey(c.hk), cp, p);
            var most := if c.kind == Exit then r.avail else Min(c.amount, r.avail);
            && OfClaim(c.key) in n.requests
            && most - RAO < n.requests[OfClaim(c.key)].approved <= most
            && Bal(n, e, cp, p) == Bal(db, e, cp, p) - n.requests[OfClaim(c.key)].approved - (if c.kind == Exit then r.lk else 0.0)
  {
    RequestMoves(db, w, cp, p, c, Hotkey(c.hk));
    FloorRaoBounds(Min(if c.kind == Exit then RoomOf(db, w.market, Hotkey(c.hk), cp, p).avail else c.amount, RoomOf(db, w.market, Hotkey(c.hk), cp, p).avail));
    hide RoomOf, FloorRao, ToUnits, ToAlpha, UnitsAt, Bal;
  }

  /** Exits recorded by a request: at most its own. */
  lemma RequestExits(db: Db, w: World, cp: int, p: Price, c: Claim)
    ensures var n := RequestOne(db, w, cp, Some(p), c);
            && (forall k :: k in db.exits ==> k in n.exits && n.exits[k] == db.exits[k])
            && (forall k :: k in n.exits && k !in db.exits ==> c.kind == Exit && k == (Hotkey(c.hk), cp) && n.exits[k].afterCycle == w.market.closedBy(cp))
            && (c.kind == Exit ==> (Hotkey(c.hk), cp) in n.exits)
  {
    hide RoomOf, ApprovedFor, ToUnits;
  }

  lemma ExitsAtKept(db: Db, w: World, cp: int, p: Price, c: Claim)
    requires ExitsAt(db, w.market, cp)
    ensures ExitsAt(RequestOne(db, w, cp, Some(p), c), w.market, cp)
  {
    hide RequestOne;
    RequestExits(db, w, cp, p, c);
  }

  /** A withdrawal leaves a covered entity covered; an exit leaves it exactly its open amount. */
  lemma RequestKeepsCovered(db: Db, w: World, cp: int, p: Price, c: Claim, e: Entity)
    requires NoRows(db, c.key) && UnitsAt(db.ledger, Hotkey(c.hk), cp * US) >= 0.0 && e.Hotkey?
    requires MarketOk(w.market, cp) && ExitsAt(db, w.market, cp)
    requires Covered(db, w.market, e, cp, p)
    ensures Covered(RequestOne(db, w, cp, Some(p), c), w.market, e, cp, p)
    ensures c.kind == Exit && e == Hotkey(c.hk) ==> HoldsOpenOnly(RequestOne(db, w, cp, Some(p), c), w.market, e, cp, p)
  {
    hide RequestOne, ApprovedFor, ToAlpha, UnitsAt, Locked, RoomOf;
    var n, r := RequestOne(db, w, cp, Some(p), c), RoomOf(db, w.market, Hotkey(c.hk), cp, p);
    RequestMoves(db, w, cp, p, c, e);
    RequestExits(db, w, cp, p, c);
    if e != Hotkey(c.hk) || c.kind != Exit {
      OtherExitsLock(db, n, w.market, e, cp);
      if e == Hotkey(c.hk) {
        CoveredRoom(db, w.market, e, cp, p, c);
      }
    } else {
      ExitsAtKept(db, w, cp, p, c);
      ExitUnlocks(n, w.market, e, cp);
      CoveredRoom(db, w.market, e, cp, p, c);
    }
  }

  /** The room of a covered entity. */
  lemma CoveredRoom(db: Db, m: Market, e: Entity, cp: int, p: Price, c: Claim)
    requires Covered(db, m, e, cp, p)
    ensures var r := RoomOf(db, m, e, cp, p);
            var ok := ApprovedFor(r, c);
            && r.lk == Locked(db, m, e, cp) && r.opn == m.open(e, cp) && r.bal == Bal(db, e, cp, p)
            && r.avail == r.bal - r.lk - r.opn && ok <= r.avail
            && (c.kind == Exit ==> r.avail < ok + RAO)
  {
    LockedNonNegative(db, m, e, cp);
    hide UnitsAt, ToAlpha, Locked, FloorRao;
    var r := RoomOf(db, m, e, cp, p);
    FloorRaoBounds(Min(if c.kind == Exit then r.avail else c.amount, r.avail));
  }

  /** After an exit nothing more can be taken at this checkpoint. */
  lemma OpenOnlyKept(db: Db, w: World, cp: int, p: Price, c: Claim, e: Entity)
    requires NoRows(db, c.key) && UnitsAt(db.ledger, Hotkey(c.hk), cp * US) >= 0.0 && e.Hotkey?
    requires MarketOk(w.market, cp) && ExitsAt(db, w.market, cp)
    requires HoldsOpenOnly(db, w.market, e, cp, p)
    ensures HoldsOpenOnly(RequestOne(db, w, cp, Some(p), c), w.market, e, cp, p)
  {
    hide RequestOne, ApprovedFor, ToAlpha, UnitsAt, Locked, RoomOf;
    var n := RequestOne(db, w, cp, Some(p), c);
    RequestKeepsCovered(db, w, cp, p, c, e);
    RequestMoves(db, w, cp, p, c, e);
    RequestExits(db, w, cp, p, c);
    if e == Hotkey(c.hk) && c.kind != Exit {
      OtherExitsLock(db, n, w.market, e, cp);
      SmallRoom(db, w.market, e, cp, p, c);
    } else if e != Hotkey(c.hk) {
      OtherExitsLock(db, n, w.market, e, cp);
    }
  }

  lemma SmallRoom(db: Db, m: Market, e: Entity, cp: int, p: Price, c: Claim)
    requires HoldsOpenOnly(db, m, e, cp, p)
    ensures ApprovedFor(RoomOf(db, m, e, cp, p), c) == 0.0
  {
    hide UnitsAt, ToAlpha, Locked, FloorRao;
    var r := RoomOf(db, m, e, cp, p);
    var x := Min(if c.kind == Exit then r.avail else c.amount, r.avail);
    assert 0.0 <= x < RAO;
    FloorOfLess(x);
  }

  lemma FloorOfLess(x: real)
    requires 0.0 <= x < RAO
    ensures FloorRao(x) == 0.0
  {
    assert 0.0 <= x * 1000000000.0 < 1.0;
  }

  // ---------------------------------------------------------------- all of phase B

  /** The entity exits in this span. */
  predicate Exits(cs: seq<Claim>, e: Entity)
  {
    exists c :: c in cs && c.kind == Exit && Hotkey(c.hk) == e
  }

  lemma {:induction false} RequestsCover(db: Db, w: World, cp: int, p: Price, cs: seq<Claim>, e: Entity, a: set<Key>, b: set<Key>, n: nat)
    requires Whole(db, w.ch, cp * US) && KeysFrom(db, a, b, n) && Keyed(cs) && KeysOf(cs) !! b
    requires PriceAt(w.ch, cp) == Some(p) && e.Hotkey?
    requires MarketOk(w.market, cp) && ExitsAt(db, w.market, cp) && Covered(db, w.market, e, cp, p)
    ensures var d := Requests(db, w, cp, Some(p), cs);
            && ExitsAt(d, w.market, cp) && Covered(d, w.market, e, cp, p)
            && (Exits(cs, e) ==> HoldsOpenOnly(d, w.market, e, cp, p))
    decreases |cs|
  {
    hide Whole, KeysOf, RequestOne, KeysFrom, NoRows, PriceAt, Covered, HoldsOpenOnly, ExitsAt, MarketOk, UnitsAt;
    if cs != [] {
      var front, c := cs[..|cs| - 1], cs[|cs| - 1];
      FrontKeys(cs);
      RequestsCover(db, w, cp, p, front, e, a, b, n);
      RequestsKeep(db, w, cp, Some(p), front, a, b, n);
      var d := Requests(db, w, cp, Some(p), front);
      RequestFromClaim(d, w, cp, Some(p), c, a, b + KeysOf(front), n);
      WholeHolds(d, w.ch, cp * US, Hotkey(c.hk), cp * US, p);
      RequestKeepsCovered(d, w, cp, p, c, e);
      ExitsAtKept(d, w, cp, p, c);
      if Exits(front, e) {
        OpenOnlyKept(d, w, cp, p, c, e);
      }
      assert cs == front + [c];
    }
  }

  lemma {:induction false} SweepsGrow(db: Db, w: World, cp: int, cs: seq<Claim>, e: Entity, a: set<Key>, b: set<Key>, n: nat)
    requires Whole(db, w.ch, cp * US) && KeysFrom(db, a, b, n) && Keyed(cs) && KeysOf(cs) !! b
    ensures UnitsAt(db.ledger, e, cp * US) <= UnitsAt(Sweeps(db, w, cp, cs).ledger, e, cp * US)
    ensures Sweeps(db, w, cp, cs).exits == db.exits
    decreases |cs|
  {
    hide Whole, KeysOf, SweepOne, KeysFrom, UnitsAt, SweepRow, Total, Inflow, RefUsed;
    if cs != [] {
      var front, c := cs[..|cs| - 1], cs[|cs| - 1];
      FrontKeys(cs);
      SweepsGrow(db, w, cp, front, e, a, b, n);
      SweepsKeep(db, w, cp, front, cp * US, a, b, n);
      var d := Sweeps(db, w, cp, front);
      SweepFrom(d, w, cp, c, a, b + KeysOf(front), n);
      SweepOneAdds(d.ledger, w, cp, c);
      UnitsGrow(d.ledger, SweepClaim(d, w, cp, c).ledger, c, cp * US, e, cp * US);
    }
  }

  /**
   Phase B never leaves an entity with less than it has locked and open, unless it was already below; and one
   that exits while covered is left with its open amount, to within one rao, and with nothing locked.
   */
  lemma PhaseBKeepsCovered(db: Db, w: World, cp: int, blk: int, e: Entity, a: set<Key>, b: set<Key>, n: nat)
    requires Whole(db, w.ch, cp * US) && KeysFrom(db, a, b, n) && Keyed(w.claims) && b == Received(w.claims, cp - STEP_S)
    requires w.ch.blockAt(cp) == Some(blk) && w.ch.price(blk).Some? && e.Hotkey?
    requires MarketOk(w.market, cp) && (forall x :: (x, cp) !in db.exits)
    requires Covered(db, w.market, e, cp, w.ch.price(blk).value)
    ensures var d, p := PhaseB(db, w, cp, blk), w.ch.price(blk).value;
            && Covered(d, w.market, e, cp, p)
            && (Exits(Claims(w.claims, {Withdraw, Exit}, cp), e) ==> HoldsOpenOnly(d, w.market, e, cp, p))
  {
    hide Whole, Claims, Sweeps, Requests, Received, KeysOf, CheckOf, KeysFrom, Locked, MarketOk, UnitsAt, ToAlpha, Defaults;
    var p := w.ch.price(blk).value;
    var xs, ys := Claims(w.claims, {Sweep}, cp), Claims(w.claims, {Withdraw, Exit}, cp);
    ClaimsOfSpan(w.claims, {Sweep}, cp);
    ClaimsOfSpan(w.claims, {Withdraw, Exit}, cp);
    SpanIsNew(w.claims, {Sweep}, cp);
    SpanIsNew(w.claims, {Withdraw, Exit}, cp);
    SweepsAndRequestsDiffer(w.claims, cp);
    SweepsKeep(db, w, cp, xs, cp * US, a, b, n);
    SweepsGrow(db, w, cp, xs, e, a, b, n);
    var db1 := Sweeps(db, w, cp, xs);
    AlphaMonotone(UnitsAt(db.ledger, e, cp * US), UnitsAt(db1.ledger, e, cp * US), p);
    OtherExitsLock(db, db1, w.market, e, cp);
    RequestsCover(db1, w, cp, p, ys, e, a, b + KeysOf(xs), n);
    var db2 := Requests(db1, w, cp, Some(p), ys);
    OtherExitsLock(db2, PhaseB(db, w, cp, blk), w.market, e, cp);
  }

  /** On every run, whenever phase B runs. */
  lemma EveryPhaseBKeepsCovered(s: Setup, steps: seq<Step>, st: State, e: Entity)
    requires WellSet(s) && Leads(s, steps, st) && Enabled(s, st, DoPhaseB) && e.Hotkey?
    requires PriceAt(s.w.ch, Next(st.db, s.first)).Some? && MarketOk(s.w.market, Next(st.db, s.first))
    requires Covered(st.db, s.w.market, e, Next(st.db, s.first), PriceAt(s.w.ch, Next(st.db, s.first)).value)
    ensures var cp := Next(st.db, s.first);
            var n, p := Do(s, st, DoPhaseB).db, PriceAt(s.w.ch, cp).value;
            && Covered(n, s.w.market, e, cp, p)
            && (Exits(Claims(s.w.claims, {Withdraw, Exit}, cp), e) ==> HoldsOpenOnly(n, s.w.market, e, cp, p))
  {
    hide WellSet, Safe, Leads, Enabled, Do, Covered, HoldsOpenOnly, MarketOk, Next, Claims, Exits, PriceAt;
    ReachableIsSafe(s, steps, st);
    SafePhaseBKeepsCovered(s, st, e);
  }

  lemma SafePhaseBKeepsCovered(s: Setup, st: State, e: Entity)
    requires WellSet(s) && Safe(s, st) && Enabled(s, st, DoPhaseB) && e.Hotkey?
    requires PriceAt(s.w.ch, Next(st.db, s.first)).Some? && MarketOk(s.w.market, Next(st.db, s.first))
    requires Covered(st.db, s.w.market, e, Next(st.db, s.first), PriceAt(s.w.ch, Next(st.db, s.first)).value)
    ensures var cp := Next(st.db, s.first);
            var n, p := Do(s, st, DoPhaseB).db, PriceAt(s.w.ch, cp).value;
            && Covered(n, s.w.market, e, cp, p)
            && (Exits(Claims(s.w.claims, {Withdraw, Exit}, cp), e) ==> HoldsOpenOnly(n, s.w.market, e, cp, p))
  {
    hide Whole, KeysFrom, Received, PhaseB, Covered, HoldsOpenOnly, MarketOk, MaxOr, Claims, Exits, Calendar;
    var cp := Next(st.db, s.first);
    PhaseBKeepsCovered(st.db, s.w, cp, s.w.ch.blockAt(cp).value, e, Received(s.w.claims, CreditedThrough(s, st)),
                       Received(s.w.claims, cp - STEP_S), st.settled);
  }
}
