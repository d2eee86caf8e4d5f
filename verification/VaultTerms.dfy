/**
 What requests, exits, the reserve and payouts move, in the terms of the settle rows, claims and nets they read
 (markets_vault.py:145-162, 301-328, 419-454, 471-497): who is debited and credited, and how much.
 */
module VaultTerms {
  import opened Wrappers
  import opened Sums
  import opened Sorting
  import opened Vault
  import opened VaultLaws
  import opened VaultBalances
  import opened VaultRun
  import opened VaultSafety
  import opened VaultReplay
  import opened VaultCommute

  // ---------------------------------------------------------------- whole rao

  /** `x` is the largest whole number of rao at most `y`. */
  ghost predicate WholeRaoOf(x: real, y: real)
  {
    exists k: int :: RaoOf(x, y, k)
  }

  ghost predicate RaoOf(x: real, y: real, k: int)
  {
    x * 1000000000.0 == k as real && k as real <= y * 1000000000.0 < k as real + 1.0
  }

  lemma FloorIsWhole(y: real)
    ensures WholeRaoOf(FloorRao(y), y)
  {
    assert RaoOf(FloorRao(y), y, (y * 1000000000.0).Floor);
  }

  predicate IsLarger(m: real, x: real, y: real)
  {
    x <= m && y <= m && (m == x || m == y)
  }

  predicate IsSmaller(m: real, x: real, y: real)
  {
    m <= x && m <= y && (m == x || m == y)
  }

  // ---------------------------------------------------------------- losses below the mark

  /** An exit by the time covers the cycle: what was lost through it is forfeited already. */
  ghost predicate ExitCovers(exits: map<(Entity, int), ExitRow>, e: Entity, t: int, cycle: int)
  {
    exists k :: k in exits && k.0 == e && k.1 <= t && cycle <= exits[k].afterCycle && 0 <= exits[k].afterCycle
  }

  /** How far an entity is below its mark by its last settle row; nothing without one, or once an exit covers it. */
  ghost predicate LossIs(db: Db, m: Market, e: Entity, cp: int, loss: real)
  {
    match m.lockRow(e, m.closedBy(cp))
    case None => loss == 0.0
    case Some(row) => if ExitCovers(db.exits, e, cp, row.cycle) then loss == 0.0 else IsLarger(loss, 0.0, row.hwm - row.rcum)
  }

  lemma ExitAfterIs(exits: map<(Entity, int), ExitRow>, e: Entity, t: int, cycle: int)
    ensures ExitAfter(exits, e, t) >= 0 && cycle <= ExitAfter(exits, e, t) <==> ExitCovers(exits, e, t, cycle)
  {
    var afters := set k | k in exits && k.0 == e && k.1 <= t :: exits[k].afterCycle;
    var m := MaxOr(afters, -1);
    if ExitCovers(exits, e, t, cycle) {
      var k :| k in exits && k.0 == e && k.1 <= t && cycle <= exits[k].afterCycle && 0 <= exits[k].afterCycle;
      assert exits[k].afterCycle in afters;
    }
  }

  lemma LockedIsLoss(db: Db, m: Market, e: Entity, cp: int)
    ensures LossIs(db, m, e, cp, Locked(db, m, e, cp))
  {
    var row := m.lockRow(e, m.closedBy(cp));
    if row.Some? {
      ExitAfterIs(db.exits, e, cp, row.value.cycle);
    }
    hide ExitAfter, ExitCovers;
  }

  lemma LossIsOne(db: Db, m: Market, e: Entity, cp: int, x: real, y: real)
    requires LossIs(db, m, e, cp, x) && LossIs(db, m, e, cp, y)
    ensures x == y
  {
  }

  // ---------------------------------------------------------------- withdrawals and exits

  ghost function AlphaOf(db: Db, e: Entity, cp: int, p: Price): real
  {
    ToAlpha(UnitsAt(db.ledger, e, cp * US), p)
  }

  /** `x` is what is left of `y`, nothing if it is negative. */
  predicate IsLeft(x: real, y: real)
  {
    IsLarger(x, 0.0, y)
  }

  /**
   A withdrawal is approved for the largest whole number of rao within what is asked and what the balance leaves after
   the loss below the mark and the open bets, and exactly that is debited from the entity and from nobody else.
   */
  lemma WithdrawalLeavesLoss(db: Db, w: World, cp: int, p: Price, c: Claim, loss: real, free: real, most: real, t: int)
    requires NoRows(db, c.key) && c.kind != Exit && UnitsAt(db.ledger, Hotkey(c.hk), cp * US) >= 0.0
    requires LossIs(db, w.market, Hotkey(c.hk), cp, loss)
    requires IsLeft(free, AlphaOf(db, Hotkey(c.hk), cp, p) - loss - w.market.open(Hotkey(c.hk), cp))
    requires IsSmaller(most, c.amount, free)
    ensures var n := RequestOne(db, w, cp, Some(p), c);
            && OfClaim(c.key) in n.requests
            && var r := n.requests[OfClaim(c.key)];
               && WholeRaoOf(r.approved, most) && r.entity == Hotkey(c.hk) && r.cp == cp && r.requested == c.amount
               && r.status == (if r.approved > 0.0 then Approved else Refused) && r.releasedBy.None?
               && (forall e :: UnitsAt(n.ledger, e, t) == UnitsAt(db.ledger, e, t)
                               - (if e == Hotkey(c.hk) && cp * US <= t then ToUnits(r.approved, p) else 0.0))
               && n.exits == db.exits
  {
    hide UnitsAt, ToUnits, ToAlpha, FloorRao, LossIs, Locked, WholeRaoOf;
    var h := Hotkey(c.hk);
    LockedIsLoss(db, w.market, h, cp);
    LossIsOne(db, w.market, h, cp, loss, Locked(db, w.market, h, cp));
    LossNonNegative(db, w.market, h, cp, loss);
    AlphaMonotone(0.0, UnitsAt(db.ledger, h, cp * US), p);
    AlphaAdd(0.0, 0.0, p);
    var r := RoomOf(db, w.market, h, cp, p);
    assert r.avail == free;
    FloorIsWhole(most);
    FloorRaoBounds(most);
    ApproveMoves(db, w, cp, p, c, t);
  }

  lemma LossNonNegative(db: Db, m: Market, e: Entity, cp: int, loss: real)
    requires LossIs(db, m, e, cp, loss)
    ensures loss >= 0.0
  {
  }

  lemma ApproveMoves(db: Db, w: World, cp: int, p: Price, c: Claim, t: int)
    requires NoRows(db, c.key) && 0.0 <= ApprovedFor(RoomOf(db, w.market, Hotkey(c.hk), cp, p), c)
    ensures var n, ok := ApproveOne(db, w, cp, p, c), ApprovedFor(RoomOf(db, w.market, Hotkey(c.hk), cp, p), c);
            forall e :: UnitsAt(n.ledger, e, t) == UnitsAt(db.ledger, e, t) - (if e == Hotkey(c.hk) && cp * US <= t then ToUnits(ok, p) else 0.0)
  {
    hide UnitsAt, ToUnits, RoomOf, ApprovedFor;
    var ok := ApprovedFor(RoomOf(db, w.market, Hotkey(c.hk), cp, p), c);
    UnitsOfAlpha(0.0, p);
    if ok > 0.0 {
      forall e {
        PostUnits(db.ledger, Wd(c.key), Row(cp * US, Hotkey(c.hk), -ToUnits(ok, p), -ok, WithdrawRow, (0, 0)), e, t);
      }
    }
  }

  /**
   An exit is approved for all that the loss below the mark and the open bets leave, in whole rao; the loss, as far as
   the balance reaches, moves to the reserve, and the exit is recorded with it and with the cycle closed then.
   */
  lemma ExitForfeitsLoss(db: Db, w: World, cp: int, p: Price, c: Claim, loss: real, taken: real, free: real, t: int)
    requires NoRows(db, c.key) && c.kind == Exit && UnitsAt(db.ledger, Hotkey(c.hk), cp * US) >= 0.0
    requires LossIs(db, w.market, Hotkey(c.hk), cp, loss) && IsSmaller(taken, loss, AlphaOf(db, Hotkey(c.hk), cp, p))
    requires IsLeft(free, AlphaOf(db, Hotkey(c.hk), cp, p) - taken - w.market.open(Hotkey(c.hk), cp))
    ensures var n := RequestOne(db, w, cp, Some(p), c);
            && OfClaim(c.key) in n.requests
            && var r := n.requests[OfClaim(c.key)];
               && WholeRaoOf(r.approved, free) && r.entity == Hotkey(c.hk) && r.cp == cp
               && r.status == (if r.approved > 0.0 then Approved else Refused) && r.releasedBy.None?
               && (forall e :: UnitsAt(n.ledger, e, t) == UnitsAt(db.ledger, e, t)
                               + (if t < cp * US then 0.0
                                  else if e == Hotkey(c.hk) then -ToUnits(r.approved, p) - ToUnits(taken, p)
                                  else if e == Reserve then ToUnits(taken, p) else 0.0))
               && (Hotkey(c.hk), cp) in n.exits
               && ((Hotkey(c.hk), cp) !in db.exits ==> n.exits[(Hotkey(c.hk), cp)] == ExitRow(w.market.closedBy(cp), taken))
  {
    hide UnitsAt, ToUnits, ToAlpha, FloorRao, LossIs, Locked, WholeRaoOf;
    var h := Hotkey(c.hk);
    LockedIsLoss(db, w.market, h, cp);
    LossIsOne(db, w.market, h, cp, loss, Locked(db, w.market, h, cp));
    LossNonNegative(db, w.market, h, cp, loss);
    AlphaMonotone(0.0, UnitsAt(db.ledger, h, cp * US), p);
    AlphaAdd(0.0, 0.0, p);
    var r := RoomOf(db, w.market, h, cp, p);
    assert r.avail == free && r.lk == taken;
    FloorIsWhole(free);
    FloorRaoBounds(free);
    ApproveMoves(db, w, cp, p, c, t);
    ForfeitMoves(ApproveOne(db, w, cp, p, c).ledger, cp, p, c, taken, t);
  }

  lemma ForfeitMoves(l: Ledger, cp: int, p: Price, c: Claim, a: real, t: int)
    requires Forfeit(c.key) !in l && ForfeitIn(c.key) !in l && a >= 0.0
    ensures var n := ForfeitRows(l, cp, p, c, a);
            forall e :: UnitsAt(n, e, t) == UnitsAt(l, e, t)
                        + (if t < cp * US then 0.0 else if e == Hotkey(c.hk) then -ToUnits(a, p) else if e == Reserve then ToUnits(a, p) else 0.0)
  {
    hide UnitsAt, ToUnits;
    UnitsOfAlpha(0.0, p);
    if a > 0.0 {
      var u := ToUnits(a, p);
      var out := Row(cp * US, Hotkey(c.hk), -u, -a, ForfeitRow, (0, 0));
      forall e
        ensures UnitsAt(ForfeitRows(l, cp, p, c, a), e, t)
                == UnitsAt(l, e, t) + (if t < cp * US then 0.0 else if e == Hotkey(c.hk) then -u else if e == Reserve then u else 0.0)
      {
        PostUnits(l, Forfeit(c.key), out, e, t);
        PostUnits(Post(l, Forfeit(c.key), out), ForfeitIn(c.key), Row(cp * US, Reserve, u, a, ForfeitRow, (0, 0)), e, t);
      }
    }
  }

  // ---------------------------------------------------------------- the reserve

  /** What the claims with a positive amount come to. */
  function Positive(claims: map<Entity, real>): Entity -> real
  {
    (e: Entity) => if e in claims && claims[e] > 0.0 then claims[e] else 0.0
  }

  /** A claimant's share of what the reserve has: its claim, scaled down when the reserve has less than all claims. */
  ghost predicate ShareIs(claims: map<Entity, real>, have: real, e: Entity, share: real)
  {
    var tot := Sum(claims.Keys, Positive(claims));
    if e !in claims || e == Reserve || claims[e] <= 0.0 || have <= 0.0 || tot <= 0.0 then share == 0.0
    else WholeRaoOf(share, Paid(claims[e], have, tot))
  }

  /** A claim, scaled down when the reserve has less than the claims come to. */
  function Paid(claim: real, have: real, tot: real): real
    requires tot > 0.0
  {
    if tot <= have then claim else claim * (have / tot)
  }

  /** The shares of all claimants. */
  ghost predicate SharesAre(claims: map<Entity, real>, have: real, shares: Entity -> real)
  {
    forall e :: ShareIs(claims, have, e, shares(e))
  }

  lemma SameFloor(y: real, j: int, k: int)
    requires j as real <= y < j as real + 1.0 && k as real <= y < k as real + 1.0
    ensures j == k
  {
    assert (j - k) as real == j as real - k as real;
  }

  lemma SameRao(x: real, z: real)
    requires x * 1000000000.0 == z * 1000000000.0
    ensures x == z
  {
  }

  lemma WholeRaoIsOne(x: real, z: real, y: real)
    requires WholeRaoOf(x, y) && WholeRaoOf(z, y)
    ensures x == z
  {
    var j: int :| RaoOf(x, y, j);
    var k: int :| RaoOf(z, y, k);
    SameFloor(y * 1000000000.0, j, k);
    SameRao(x, z);
  }

  /** The parts the reserve pays are the shares. */
  lemma PartIsShare(claims: map<Entity, real>, l: Ledger, tc: int, p: Price, e: Entity, share: real)
    requires e in claims && e.Hotkey?
    requires ShareIs(claims, ToAlpha(UnitsAt(l, Reserve, tc * US - 1), p), e, share)
    ensures ReservePart(claims, e, ReserveScale(l, tc, claims, p)) == share && share >= 0.0
  {
    hide ToAlpha, UnitsAt, Sum, WholeRaoOf, Paid, ReserveScale, ReservePart;
    var have := ToAlpha(UnitsAt(l, Reserve, tc * US - 1), p);
    var tot := Sum(claims.Keys, Positive(claims));
    SumCongruent(claims.Keys, PositivePart(claims), Positive(claims));
    if claims[e] > 0.0 {
      forall x | x in claims.Keys ensures Positive(claims)(x) >= 0.0 {
      }
      SumTermAtMost(claims.Keys, Positive(claims), e);
      if have > 0.0 {
        PartIsPaid(claims, l, tc, p, e, share, have, tot);
      } else {
        PartIsNothing(claims, l, tc, p, e, have, tot);
      }
    } else {
      NoPart(claims, e, ReserveScale(l, tc, claims, p));
    }
  }

  lemma NoPart(claims: map<Entity, real>, e: Entity, scale: real)
    requires e in claims && claims[e] <= 0.0
    ensures ReservePart(claims, e, scale) == 0.0
  {
  }

  lemma PartIsNothing(claims: map<Entity, real>, l: Ledger, tc: int, p: Price, e: Entity, have: real, tot: real)
    requires e in claims && have == ToAlpha(UnitsAt(l, Reserve, tc * US - 1), p) <= 0.0 && tot == Sum(claims.Keys, PositivePart(claims)) > 0.0
    ensures ReservePart(claims, e, ReserveScale(l, tc, claims, p)) == 0.0
  {
    hide ToAlpha, UnitsAt, Sum;
    ScaleOf(l, tc, claims, p, have, tot);
    hide ReserveScale;
    ZeroTimes(claims[e]);
    FloorOfNothing();
  }

  lemma PartIsPaid(claims: map<Entity, real>, l: Ledger, tc: int, p: Price, e: Entity, share: real, have: real, tot: real)
    requires e in claims && have == ToAlpha(UnitsAt(l, Reserve, tc * US - 1), p) > 0.0 && tot == Sum(claims.Keys, PositivePart(claims))
    requires 0.0 < claims[e] <= tot && WholeRaoOf(share, Paid(claims[e], have, tot))
    ensures ReservePart(claims, e, ReserveScale(l, tc, claims, p)) == share >= 0.0
  {
    hide ToAlpha, UnitsAt, Sum, Paid, WholeRaoOf, ReserveScale, ReservePart;
    ScaleOf(l, tc, claims, p, have, tot);
    PartWith(claims, e, ReserveScale(l, tc, claims, p), have, tot, share);
  }

  lemma PartWith(claims: map<Entity, real>, e: Entity, scale: real, have: real, tot: real, share: real)
    requires e in claims && 0.0 < claims[e] <= tot && have > 0.0 && scale == Min(1.0, have / tot)
    requires WholeRaoOf(share, Paid(claims[e], have, tot))
    ensures ReservePart(claims, e, scale) == share >= 0.0
  {
    hide ReservePart, FloorRao, Paid, WholeRaoOf, Min, Scale;
    ScaledPart(claims[e], have, tot, scale, share);
    PartIsFloor(claims, e, scale);
  }

  lemma PartIsFloor(claims: map<Entity, real>, e: Entity, scale: real)
    requires e in claims && claims[e] > 0.0
    ensures ReservePart(claims, e, scale) == FloorRao(Scale(scale, claims[e]))
  {
    assert Scale(scale, claims[e]) == claims[e] * scale;
    hide FloorRao;
  }

  lemma ScaledPart(c: real, have: real, tot: real, scale: real, share: real)
    requires 0.0 < c <= tot && have > 0.0 && scale == Min(1.0, have / tot) && WholeRaoOf(share, Paid(c, have, tot))
    ensures FloorRao(Scale(scale, c)) == share >= 0.0
  {
    hide FloorRao, WholeRaoOf, Paid;
    var x := Scale(scale, c);
    ScaledClaim(c, have, tot, scale);
    assert x == Paid(c, have, tot);
    FloorIsWhole(x);
    FloorRaoBounds(x);
    WholeRaoIsOne(share, FloorRao(x), x);
  }

  lemma ScaleOf(l: Ledger, tc: int, claims: map<Entity, real>, p: Price, have: real, tot: real)
    requires have == ToAlpha(UnitsAt(l, Reserve, tc * US - 1), p) && tot == Sum(claims.Keys, PositivePart(claims)) > 0.0
    ensures ReserveScale(l, tc, claims, p) == if have <= 0.0 then 0.0 else Min(1.0, have / tot)
  {
    hide ToAlpha, UnitsAt, Sum;
  }

  lemma ZeroTimes(x: real)
    ensures x * 0.0 == 0.0
  {
  }

  lemma FloorOfNothing()
    ensures FloorRao(0.0) == 0.0
  {
  }

  lemma ScaledClaim(x: real, have: real, tot: real, scale: real)
    requires x > 0.0 && have > 0.0 && tot >= x && scale == Min(1.0, have / tot)
    ensures x * scale == Paid(x, have, tot) >= 0.0
  {
    ScaleBounds(tot, have);
    NotNegative(x, scale);
    if tot <= have {
      assert scale == 1.0;
    } else {
      assert scale == have / tot;
    }
  }

  lemma NotNegative(x: real, y: real)
    requires x >= 0.0 && y >= 0.0
    ensures x * y >= 0.0
  {
  }

  function UnitsOf(shares: Entity -> real, p: Price): Entity -> real
  {
    (e: Entity) => ToUnits(shares(e), p)
  }

  function AsSet(es: seq<Entity>): set<Entity>
  {
    set e | e in es
  }

  lemma ReserveOneMoves(l: Ledger, cycle: nat, tc: int, e: Entity, a: real, p: Price, x: Entity, t: int)
    requires Rsv(cycle, e) !in l && RsvIn(cycle, e) !in l && a >= 0.0 && e.Hotkey?
    ensures UnitsAt(ReserveOne(l, cycle, tc, e, a, p), x, t)
            == UnitsAt(l, x, t) + (if t < tc * US then 0.0 else if x == e then ToUnits(a, p) else if x == Reserve then -ToUnits(a, p) else 0.0)
  {
    hide UnitsAt, ToUnits;
    UnitsOfAlpha(0.0, p);
    if a > 0.0 {
      var u := ToUnits(a, p);
      var out := Row(tc * US, Reserve, -u, -a, ReservePayRow, (0, 0));
      PostUnits(l, Rsv(cycle, e), out, x, t);
      PostUnits(Post(l, Rsv(cycle, e), out), RsvIn(cycle, e), Row(tc * US, e, u, a, ReservePayRow, (0, 0)), x, t);
    }
  }

  lemma {:induction false} ReserveAllMoves(l: Ledger, cycle: nat, tc: int, claims: map<Entity, real>, es: seq<Entity>, scale: real, p: Price,
                                           shares: Entity -> real, x: Entity, t: int)
    requires forall e :: e in es ==> e.Hotkey? && Rsv(cycle, e) !in l && RsvIn(cycle, e) !in l
    requires forall i, j :: 0 <= i < j < |es| ==> es[i] != es[j]
    requires forall e :: e in es ==> ReservePart(claims, e, scale) == shares(e) >= 0.0
    ensures UnitsAt(ReserveAll(l, cycle, tc, claims, es, scale, p), x, t)
            == UnitsAt(l, x, t) + (if t < tc * US then 0.0
                                   else if x == Reserve then -Sum(AsSet(es), UnitsOf(shares, p))
                                   else if x in es then ToUnits(shares(x), p) else 0.0)
    decreases |es|
  {
    hide UnitsAt, ToUnits, ReservePart, ReserveOne, Sum;
    if es == [] {
      NobodyPaid(shares, p);
    } else {
      var front, e := es[..|es| - 1], es[|es| - 1];
      LastIsNew(es);
      ReserveAllMoves(l, cycle, tc, claims, front, scale, p, shares, x, t);
      ReserveAllKeys(l, cycle, tc, claims, front, scale, p);
      ReserveOneMoves(ReserveAll(l, cycle, tc, claims, front, scale, p), cycle, tc, e, shares(e), p, x, t);
      SumAddKey(AsSet(front), UnitsOf(shares, p), e);
      assert front + [e] == es;
    }
  }

  lemma NobodyPaid(shares: Entity -> real, p: Price)
    ensures Sum(AsSet([]), UnitsOf(shares, p)) == 0.0
  {
    assert AsSet([]) == {};
  }

  /**
   When the reserve pays a cycle's claims, each hotkey's units rise at the close by its own share and by nothing else,
   and the reserve's fall by what all of them were paid.
   */
  lemma ReservePaysItsClaimants(db: Db, ch: Chain, cycle: nat, tc: int, claims: map<Entity, real>, p: Price, shares: Entity -> real, e: Entity, t: int)
    requires PriceAt(ch, tc) == Some(p) && NoCycleRows(db, cycle, HotkeysInOrder(claims.Keys))
    requires SharesAre(claims, ToAlpha(UnitsAt(db.ledger, Reserve, tc * US - 1), p), shares)
    ensures UnitsAt(ReservePay(db, ch, cycle, tc, claims).ledger, e, t)
            == UnitsAt(db.ledger, e, t) + (if t < tc * US then 0.0
                                           else if e == Reserve then -Sum(claims.Keys, UnitsOf(shares, p))
                                           else ToUnits(shares(e), p))
    ensures PriceAt(ch, tc).None? ==> ReservePay(db, ch, cycle, tc, claims) == db
  {
    hide UnitsAt, ToUnits, ToAlpha, ReservePart, ReserveScale, ReserveAll, HotkeysInOrder, PriceAt, ShareIs, Sum;
    var es := HotkeysInOrder(claims.Keys);
    HotkeysDistinct(claims.Keys);
    forall x | x in es ensures ReservePart(claims, x, ReserveScale(db.ledger, tc, claims, p)) == shares(x) >= 0.0 {
      PartIsShare(claims, db.ledger, tc, p, x, shares(x));
    }
    ReserveAllMoves(db.ledger, cycle, tc, claims, es, ReserveScale(db.ledger, tc, claims, p), p, shares, e, t);
    UnitsOfAlpha(0.0, p);
    forall x | x in claims.Keys - AsSet(es) ensures UnitsOf(shares, p)(x) == 0.0 {
      assert x == Reserve;
      NoClaimNoShare(claims, ToAlpha(UnitsAt(db.ledger, Reserve, tc * US - 1), p), x, shares(x));
    }
    SumOverSupport(AsSet(es), claims.Keys, UnitsOf(shares, p));
    if e !in claims {
      NoClaimNoShare(claims, ToAlpha(UnitsAt(db.ledger, Reserve, tc * US - 1), p), e, shares(e));
    }
  }

  lemma NoClaimNoShare(claims: map<Entity, real>, have: real, e: Entity, share: real)
    requires ShareIs(claims, have, e, share) && (e !in claims || e == Reserve)
    ensures share == 0.0
  {
  }

  // ---------------------------------------------------------------- sweeps

  /** The emission a row credited to an entity before a time. */
  function CreditedBy(l: Ledger, e: Entity, t: int): LKey -> real
  {
    (k: LKey) => if k in l && l[k].kind == EmissionRow && l[k].entity == e && l[k].t < t then l[k].alpha else 0.0
  }

  /** What each entity was paid through the cycle and not credited before the time, from one rao on. */
  ghost predicate OwedIs(l: Ledger, m: Market, cycle: int, t: int, owed: map<Entity, real>)
  {
    var paid := m.paidThrough(cycle);
    forall e ::
      && (e in owed <==> e in paid && e != Reserve && 0.000000001 <= paid[e] - Sum(l.Keys, CreditedBy(l, e, t)))
      && (e in owed ==> owed[e] == paid[e] - Sum(l.Keys, CreditedBy(l, e, t)))
  }

  lemma OutstandingIsOwed(l: Ledger, m: Market, cycle: int, t: int)
    ensures OwedIs(l, m, cycle, t, Outstanding(l, m, cycle, t))
  {
    forall e ensures Sum(l.Keys, CreditedBy(l, e, t)) == CreditedBefore(l, e, t) {
      SumCongruent(l.Keys, CreditedBy(l, e, t), CreditTerm(l, e, t));
    }
    hide CreditedBefore, CreditedBy, Sum;
  }

  lemma OwedIsOne(l: Ledger, m: Market, cycle: int, t: int, a: map<Entity, real>, b: map<Entity, real>)
    requires OwedIs(l, m, cycle, t, a) && OwedIs(l, m, cycle, t, b)
    ensures a == b
  {
    hide Sum, CreditedBy;
    forall e ensures (e in a <==> e in b) && (e in a ==> a[e] == b[e]) {
    }
  }

  /** An entity's share of a sweep: what it is owed, scaled down when less arrived than is owed in all. */
  ghost predicate SweepShareIs(owed: map<Entity, real>, got: real, e: Entity, share: real)
  {
    var tot := Sum(owed.Keys, Positive(owed));
    if e !in owed || tot <= 0.0 then share == 0.0 else WholeRaoOf(share, Paid(owed[e], got, tot))
  }

  /** The sweep counts: a timely claim of an extrinsic not credited yet, that moved something at a known price. */
  ghost predicate SweepCounts(l: Ledger, w: World, c: Claim)
  {
    && !(exists k :: k in l && l[k].kind == EmissionRow && l[k].ref == (c.block, c.ext))
    && c.tRecv / 1_000_000 - 86_400 <= w.ch.blockTime(c.block) <= c.tRecv / 1_000_000
    && w.ch.sweepAlpha((c.block, c.ext)) > 0.0 && w.ch.price(c.block).Some?
  }

  lemma {:induction false} CreditAllMoves(l: Ledger, c: Claim, at: int, owed: map<Entity, real>, es: seq<Entity>, scale: real, p: Price,
                                          shares: Entity -> real, x: Entity, t: int)
    requires forall e :: Em(c.key, e) !in l
    requires forall i, j :: 0 <= i < j < |es| ==> es[i] != es[j]
    requires forall e :: e in es ==> Part(Amounts(owed)(e), scale) == shares(e) >= 0.0
    ensures var n := CreditAll(l, c, at, owed, es, scale, p);
            && UnitsAt(n, x, t) == UnitsAt(l, x, t) + (if x in es && at <= t then ToUnits(shares(x), p) else 0.0)
            && PartsOf(owed, es, scale) == Sum(AsSet(es), shares)
            && (forall e :: Em(c.key, e) in n ==> e in es)
    decreases |es|
  {
    hide UnitsAt, ToUnits, Part, Sum, Amounts;
    if es == [] {
      NobodyOwed(shares);
    } else {
      var front, e := es[..|es| - 1], es[|es| - 1];
      LastIsNew(es);
      CreditAllMoves(l, c, at, owed, front, scale, p, shares, x, t);
      var m := CreditAll(l, c, at, owed, front, scale, p);
      assert Em(c.key, e) !in m;
      UnitsOfAlpha(0.0, p);
      if shares(e) > 0.0 {
        PostUnits(m, Em(c.key, e), Row(at, e, ToUnits(shares(e), p), shares(e), EmissionRow, (c.block, c.ext)), x, t);
      }
      SumAddKey(AsSet(front), shares, e);
      assert front + [e] == es;
    }
  }

  lemma NobodyOwed(shares: Entity -> real)
    ensures Sum(AsSet([]), shares) == 0.0
  {
    assert AsSet([]) == {};
  }

  lemma SweepPart(owed: map<Entity, real>, got: real, e: Entity, share: real)
    requires (forall x :: x in owed ==> owed[x] > 0.0) && e in owed && got > 0.0 && SweepShareIs(owed, got, e, share)
    ensures Part(Amounts(owed)(e), SweepScale(owed, got)) == share >= 0.0
  {
    hide WholeRaoOf, Paid, FloorRao, Sum, Scale;
    SumCongruent(owed.Keys, Amounts(owed), Positive(owed));
    SumTermAtMost(owed.Keys, Positive(owed), e);
    ScaledPart(owed[e], got, OwedTotal(owed), SweepScale(owed, got), share);
    PartIsScaled(owed[e], SweepScale(owed, got));
  }

  lemma PartIsScaled(x: real, scale: real)
    ensures Part(x, scale) == FloorRao(Scale(scale, x))
  {
    assert Scale(scale, x) == x * scale;
    hide FloorRao;
  }

  lemma FullScale(owed: map<Entity, real>, got: real)
    requires got > 0.0 && forall x :: x in owed ==> owed[x] > 0.0
    ensures SweepScale(owed, got) >= 1.0 <==> 0.0 < Sum(owed.Keys, Positive(owed)) <= got
  {
    hide Sum;
    ScaleBounds(OwedTotal(owed), got);
    SumCongruent(owed.Keys, Amounts(owed), Positive(owed));
  }

  /**
   A sweep that counts credits each entity, at the checkpoint, its own share of what it is owed, at the price of the
   sweep's block; what is left goes to the reserve when all that is owed, and something is, has arrived.
   */
  lemma SweepPaysWhatIsOwed(l: Ledger, w: World, cp: int, c: Claim, p: Price, owed: map<Entity, real>, shares: Entity -> real, e: Entity, t: int)
    requires (forall x :: Em(c.key, x) !in l) && SweepCounts(l, w, c) && w.ch.price(c.block) == Some(p)
    requires OwedIs(l, w.market, w.market.closedBy(cp), cp * 1_000_000, owed)
    requires forall x :: SweepShareIs(owed, w.ch.sweepAlpha((c.block, c.ext)), x, shares(x))
    ensures var got, tot := w.ch.sweepAlpha((c.block, c.ext)), Sum(owed.Keys, Positive(owed));
            var left := got - Sum(owed.Keys, shares);
            UnitsAt(SweepOne(l, w, cp, c), e, t)
            == UnitsAt(l, e, t) + (if t < cp * US then 0.0
                                   else if e != Reserve then ToUnits(shares(e), p)
                                   else if 0.0 < tot <= got && left > 0.0 then ToUnits(left, p) else 0.0)
  {
    hide UnitsAt, ToUnits, OwedIs, SweepShareIs, Sum, Outstanding, SweepScale, Part, HotkeysInOrder, CreditAll, PartsOf, Positive, Paid;
    var got := w.ch.sweepAlpha((c.block, c.ext));
    var now := Outstanding(l, w.market, w.market.closedBy(cp), cp * US);
    OutstandingIsOwed(l, w.market, w.market.closedBy(cp), cp * US);
    OwedIsOne(l, w.market, w.market.closedBy(cp), cp * US, now, owed);
    OwedIsPositive(l, w.market, w.market.closedBy(cp), cp * US);
    var es, scale := HotkeysInOrder(owed.Keys), SweepScale(owed, got);
    HotkeysDistinct(owed.Keys);
    forall x | x in es ensures Part(Amounts(owed)(x), scale) == shares(x) >= 0.0 {
      SweepPart(owed, got, x, shares(x));
    }
    CreditAllMoves(l, c, cp * US, owed, es, scale, p, shares, e, t);
    assert AsSet(es) == owed.Keys;
    FullScale(owed, got);
    UnitsOfAlpha(0.0, p);
    NoShareUnowed(owed, got, e, shares(e));
    SweepLeaves(l, w, cp, c, p, owed, e, t);
  }

  lemma NoShareUnowed(owed: map<Entity, real>, got: real, e: Entity, share: real)
    requires SweepShareIs(owed, got, e, share)
    ensures e !in owed ==> share == 0.0
  {
  }

  /** What the sweep does beside crediting those owed. */
  lemma SweepLeaves(l: Ledger, w: World, cp: int, c: Claim, p: Price, owed: map<Entity, real>, e: Entity, t: int)
    requires SweepCounts(l, w, c) && w.ch.price(c.block) == Some(p) && owed == Outstanding(l, w.market, w.market.closedBy(cp), cp * US)
    requires var got := w.ch.sweepAlpha((c.block, c.ext));
             Em(c.key, Reserve) !in CreditAll(l, c, cp * US, owed, HotkeysInOrder(owed.Keys), SweepScale(owed, got), p)
    ensures var got := w.ch.sweepAlpha((c.block, c.ext));
            var es, scale := HotkeysInOrder(owed.Keys), SweepScale(owed, got);
            var left := got - PartsOf(owed, es, scale);
            UnitsAt(SweepOne(l, w, cp, c), e, t)
            == UnitsAt(CreditAll(l, c, cp * US, owed, es, scale, p), e, t)
               + (if e == Reserve && cp * US <= t && left > 0.0 && scale >= 1.0 then ToUnits(left, p) else 0.0)
  {
    hide UnitsAt, ToUnits, Outstanding, SweepScale, HotkeysInOrder, CreditAll, PartsOf;
    var got := w.ch.sweepAlpha((c.block, c.ext));
    var es, scale := HotkeysInOrder(owed.Keys), SweepScale(owed, got);
    var left := got - PartsOf(owed, es, scale);
    if left > 0.0 && scale >= 1.0 {
      PostUnits(CreditAll(l, c, cp * US, owed, es, scale, p), Em(c.key, Reserve),
                Row(cp * US, Reserve, ToUnits(left, p), left, EmissionRow, (c.block, c.ext)), e, t);
    }
  }

  /** Any other sweep credits nobody. */
  lemma OtherSweepsCreditNobody(l: Ledger, w: World, cp: int, c: Claim)
    requires !SweepCounts(l, w, c)
    ensures SweepOne(l, w, cp, c) == l
  {
  }

  // ---------------------------------------------------------------- payouts

  /** What a net is worth in whole rao, and what the balance lets be taken of it. */
  ghost predicate TakenIs(net: real, bal: real, want: real, most: real, taken: real)
  {
    && WholeRaoOf(want, net)
    && if want <= 0.0 then taken == 0.0 else IsSmaller(most, want, bal) && WholeRaoOf(taken, most)
  }

  /** The units one row of payouts moves. */
  lemma PayoutUnits(cycle: nat, tc: int, es: seq<Entity>, takes: Entity -> real, p: Price, e: Entity, t: int)
    requires takes(e) >= 0.0
    ensures UnitsAt(PayoutRows(cycle, tc, es, takes, p), e, t) == if e in es && tc * US <= t then -ToUnits(takes(e), p) else 0.0
  {
    hide ToUnits;
    UnitsOfAlpha(0.0, p);
    var rows := PayoutRows(cycle, tc, es, takes, p);
    var k := Payout(cycle, e);
    forall j | j in rows.Keys && j != k ensures UnitsTerm(rows, e, t)(j) == 0.0 {
      assert j.entity != e;
    }
    if k in rows {
      SumTake(rows.Keys, UnitsTerm(rows, e, t), k);
      SumZero(rows.Keys - {k}, UnitsTerm(rows, e, t));
    } else {
      SumZero(rows.Keys, UnitsTerm(rows, e, t));
    }
  }

  /** What the payouts take is the taken amount. */
  lemma TakesIsTaken(l: Ledger, tc: int, nets: map<Entity, real>, p: Price, e: Entity, want: real, most: real, taken: real)
    requires e in nets && ToAlpha(UnitsAt(l, e, tc * US), p) >= 0.0
    requires TakenIs(nets[e], ToAlpha(UnitsAt(l, e, tc * US), p), want, most, taken)
    ensures Takes(l, tc, nets, p)(e) == taken >= 0.0 && FloorRao(nets[e]) == want
  {
    hide ToAlpha, UnitsAt, FloorRao, WholeRaoOf;
    FloorIsWhole(nets[e]);
    WholeRaoIsOne(want, FloorRao(nets[e]), nets[e]);
    assert Amounts(nets)(e) == nets[e];
    TakesOf(l, tc, nets, p, e);
    if want > 0.0 {
      FloorIsWhole(most);
      WholeRaoIsOne(taken, FloorRao(most), most);
      FloorRaoBounds(most);
      assert PayoutOf(l, e, tc, nets[e], p) == FloorRao(Min(FloorRao(nets[e]), Max(ToAlpha(UnitsAt(l, e, tc * US), p), 0.0)));
    }
  }

  /**
   A cycle's payouts take from each entity that is net ahead the whole rao of its net, or of its balance at the close if
   that is less, and open a request for it in its own name; nobody else's balance moves.
   */
  lemma PayoutsTakeTheirNets(db: Db, ch: Chain, cycle: nat, tc: int, nets: map<Entity, real>, p: Price, e: Entity, want: real, most: real,
                             taken: real, t: int)
    requires PriceAt(ch, tc) == Some(p) && NoPayoutRows(db, cycle, HotkeysInOrder(nets.Keys))
    requires e in nets && e.Hotkey? && UnitsAt(db.ledger, e, tc * US) >= 0.0
    requires TakenIs(nets[e], ToAlpha(UnitsAt(db.ledger, e, tc * US), p), want, most, taken)
    ensures var n, k := PayoutDebit(db, ch, cycle, tc, nets), OfPayout(cycle, e);
            && UnitsAt(n.ledger, e, t) == UnitsAt(db.ledger, e, t) - (if tc * US <= t then ToUnits(taken, p) else 0.0)
            && (k in n.requests <==> want > 0.0)
            && (want > 0.0 ==> n.requests[k] == Request(e, want, tc, taken, if taken > 0.0 then Approved else Uncovered, None, 0.0))
  {
    hide ToAlpha, ToUnits, UnitsAt, FloorRao, TakenIs, HotkeysInOrder, PriceAt, PayoutRows, PayoutAll, Takes;
    var es := HotkeysInOrder(nets.Keys);
    var takes := Takes(db.ledger, tc, nets, p);
    HotkeysDistinct(nets.Keys);
    PayoutsTogether(db, cycle, tc, nets, es, p);
    AlphaMonotone(0.0, UnitsAt(db.ledger, e, tc * US), p);
    AlphaAdd(0.0, 0.0, p);
    TakesIsTaken(db.ledger, tc, nets, p, e, want, most, taken);
    PayoutUnits(cycle, tc, es, takes, p, e, t);
    RowsAreNew(db, cycle, tc, es, takes, p);
    UnitsOver(db.ledger, PayoutRows(cycle, tc, es, takes, p), e, t);
    assert Amounts(nets)(e) == nets[e];
  }

  lemma RowsAreNew(db: Db, cycle: nat, tc: int, es: seq<Entity>, takes: Entity -> real, p: Price)
    requires NoPayoutRows(db, cycle, es)
    ensures db.ledger.Keys !! PayoutRows(cycle, tc, es, takes, p).Keys
  {
    hide DebitRow;
    forall k | k in PayoutRows(cycle, tc, es, takes, p) ensures k !in db.ledger {
      assert k == Payout(cycle, k.entity);
    }
  }

  lemma PayoutsSpareOthers(db: Db, ch: Chain, cycle: nat, tc: int, nets: map<Entity, real>, e: Entity, t: int)
    requires NoPayoutRows(db, cycle, HotkeysInOrder(nets.Keys)) && (e !in nets || e == Reserve)
    ensures UnitsAt(PayoutDebit(db, ch, cycle, tc, nets).ledger, e, t) == UnitsAt(db.ledger, e, t)
  {
    hide ToUnits, UnitsAt, FloorRao, HotkeysInOrder, PriceAt, PayoutRows, PayoutAll, Takes;
    if PriceAt(ch, tc).Some? {
      var p, es := PriceAt(ch, tc).value, HotkeysInOrder(nets.Keys);
      var takes := Takes(db.ledger, tc, nets, p);
      HotkeysDistinct(nets.Keys);
      PayoutsTogether(db, cycle, tc, nets, es, p);
      NoRowsFor(cycle, tc, es, takes, p, e);
      NoUnits(PayoutRows(cycle, tc, es, takes, p), e, t);
      RowsAreNew(db, cycle, tc, es, takes, p);
      UnitsOver(db.ledger, PayoutRows(cycle, tc, es, takes, p), e, t);
    }
  }

  lemma NoRowsFor(cycle: nat, tc: int, es: seq<Entity>, takes: Entity -> real, p: Price, e: Entity)
    requires e !in es
    ensures var rows := PayoutRows(cycle, tc, es, takes, p);
            forall k :: k in rows ==> rows[k].entity != e
  {
    hide ToUnits;
  }

  /** Settling a cycle pays the reserve's claimants first, and then debits the nets from the balances that leaves. */
  lemma SettlementPaysThenDebits(db: Db, ch: Chain, cycle: nat, tc: int, owed: map<Entity, real>, nets: map<Entity, real>, p: Price,
                                 shares: Entity -> real, e: Entity, want: real, most: real, taken: real, t: int)
    requires PriceAt(ch, tc) == Some(p) && NoCycleRows(db, cycle, HotkeysInOrder(owed.Keys)) && NoPayoutRows(db, cycle, HotkeysInOrder(nets.Keys))
    requires SharesAre(owed, ToAlpha(UnitsAt(db.ledger, Reserve, tc * US - 1), p), shares)
    requires e in nets && e.Hotkey? && UnitsAt(db.ledger, e, tc * US) + ToUnits(shares(e), p) >= 0.0
    requires TakenIs(nets[e], ToAlpha(UnitsAt(db.ledger, e, tc * US) + ToUnits(shares(e), p), p), want, most, taken)
    ensures UnitsAt(Settle(db, ch, cycle, tc, owed, nets).ledger, e, t)
            == UnitsAt(db.ledger, e, t) + (if tc * US <= t then ToUnits(shares(e), p) - ToUnits(taken, p) else 0.0)
  {
    hide UnitsAt, ToUnits, ToAlpha, SharesAre, TakenIs, HotkeysInOrder, PriceAt, ReservePay, PayoutDebit, NoPayoutRows, NoCycleRows;
    var x := Closing(cycle, tc, owed, nets);
    var d := ReservePay(db, ch, cycle, tc, owed);
    ReservePaysItsClaimants(db, ch, cycle, tc, owed, p, shares, e, tc * US);
    ReservePaysItsClaimants(db, ch, cycle, tc, owed, p, shares, e, t);
    ReserveOpensNothing(db, ch, x);
    PayoutsTakeTheirNets(d, ch, cycle, tc, nets, p, e, want, most, taken, t);
  }

  // ---------------------------------------------------------------- what a checkpoint's requests see

  /** The loss does not depend on rows and requests. */
  lemma SameLoss(a: Db, b: Db, m: Market, e: Entity, cp: int, loss: real)
    requires a.exits == b.exits && LossIs(a, m, e, cp, loss)
    ensures LossIs(b, m, e, cp, loss)
  {
  }

  /**
   The only withdrawal of a checkpoint is judged by the balance the checkpoint leaves with what it took added back: so the
   sweeps of the span are credited before it.
   */
  lemma WithdrawalSeesSweeps(s: Setup, st: State, c: Claim, p: Price, loss: real, held: real, free: real, most: real)
    requires WellSet(s) && Safe(s, st) && Enabled(s, st, DoPhaseB)
    requires var cp := Next(st.db, s.first);
             && Claims(s.w.claims, {Withdraw, Exit}, cp) == [c] && c.kind == Withdraw && PriceAt(s.w.ch, cp) == Some(p)
             && LossIs(st.db, s.w.market, Hotkey(c.hk), cp, loss)
             && var n := Do(s, st, DoPhaseB).db;
                OfClaim(c.key) in n.requests ==>
                  && held == ToAlpha(UnitsAt(n.ledger, Hotkey(c.hk), cp * US) + ToUnits(n.requests[OfClaim(c.key)].approved, p), p)
                  && IsLeft(free, held - loss - s.w.market.open(Hotkey(c.hk), cp)) && IsSmaller(most, c.amount, free)
    ensures var n := Do(s, st, DoPhaseB).db;
            OfClaim(c.key) in n.requests && WholeRaoOf(n.requests[OfClaim(c.key)].approved, most)
  {
    hide UnitsAt, ToUnits, ToAlpha, LossIs, WholeRaoOf, Whole, KeysFrom, Received, AtCursor, Sweeps, RequestOne, CheckOf, Defaults, Claims, Calendar,
         Next, KeysOf, NoRows, DebitsBy, PriceAt, Keyed, SettledThrough;
    var cp, h := Next(st.db, s.first), Hotkey(c.hk);
    var xs := Claims(s.w.claims, {Sweep}, cp);
    var d := Sweeps(st.db, s.w, cp, xs);
    var a, b := Received(s.w.claims, CreditedThrough(s, st)), Received(s.w.claims, cp - STEP_S);
    SweptIsWhole(s, st, c, d);
    SweepsFrame(st.db, s.w, cp, xs);
    SameLoss(st.db, d, s.w.market, h, cp, loss);
    WholeHolds(d, s.w.ch, cp * US, h, cp * US, p);
    var one := [c];
    assert one[..0] == [];
    var m := RequestOne(d, s.w, cp, Some(p), c);
    SameBlockPrice(s.w.ch, cp);
    assert Requests(d, s.w, cp, Some(p), one) == RequestOne(Requests(d, s.w, cp, Some(p), []), s.w, cp, Some(p), c) == m;
    WithdrawalOn(d, s.w, cp, p, c, loss);
    DefaultsKeepApproved(m.requests, cp, OfClaim(c.key));
    var n := Do(s, st, DoPhaseB).db;
    assert n.ledger == m.ledger && n.requests == Defaults(m.requests, cp);
    WithdrawalLeavesLoss(d, s.w, cp, p, c, loss, free, most, cp * US);
  }

  lemma SameBlockPrice(ch: Chain, cp: int)
    requires ch.blockAt(cp).Some?
    ensures PriceAt(ch, cp) == ch.price(ch.blockAt(cp).value)
  {
  }

  /** The sweeps leave the ledger whole, with no row of the request yet. */
  lemma SweptIsWhole(s: Setup, st: State, c: Claim, d: Db)
    requires WellSet(s) && Safe(s, st) && Next(st.db, s.first) in st.db.credit
    requires var cp := Next(st.db, s.first);
             d == Sweeps(st.db, s.w, cp, Claims(s.w.claims, {Sweep}, cp)) && Claims(s.w.claims, {Withdraw, Exit}, cp) == [c]
    ensures Whole(d, s.w.ch, Next(st.db, s.first) * US) && NoRows(d, c.key)
  {
    hide Whole, KeysFrom, Received, AtCursor, Sweeps, Claims, Calendar, Next, KeysOf, DebitsBy;
    var cp := Next(st.db, s.first);
    var xs, ys := Claims(s.w.claims, {Sweep}, cp), Claims(s.w.claims, {Withdraw, Exit}, cp);
    var a, b := Received(s.w.claims, cp), Received(s.w.claims, cp - STEP_S);
    ClaimsOfSpan(s.w.claims, {Sweep}, cp);
    SpanIsNew(s.w.claims, {Sweep}, cp);
    SpanIsNew(s.w.claims, {Withdraw, Exit}, cp);
    SweepsAndRequestsDiffer(s.w.claims, cp);
    SweepsKeep(st.db, s.w, cp, xs, cp * US, a, b, st.settled);
    KeyOfOne(c);
    RequestFromClaim(d, s.w, cp, None, c, a, b + KeysOf(xs), st.settled);
  }

  lemma KeyOfOne(c: Claim)
    ensures c.key in KeysOf([c])
  {
    assert c in [c];
  }

  lemma DefaultsKeepApproved(requests: map<ReqKey, Request>, cp: int, k: ReqKey)
    requires k in requests
    ensures k in Defaults(requests, cp) && Defaults(requests, cp)[k].approved == requests[k].approved
  {
  }

  /** The withdrawal's request, and the units it leaves. */
  lemma WithdrawalOn(d: Db, w: World, cp: int, p: Price, c: Claim, loss: real)
    requires NoRows(d, c.key) && c.kind == Withdraw && UnitsAt(d.ledger, Hotkey(c.hk), cp * US) >= 0.0
    requires LossIs(d, w.market, Hotkey(c.hk), cp, loss)
    ensures var n := RequestOne(d, w, cp, Some(p), c);
            && OfClaim(c.key) in n.requests
            && UnitsAt(n.ledger, Hotkey(c.hk), cp * US) + ToUnits(n.requests[OfClaim(c.key)].approved, p) == UnitsAt(d.ledger, Hotkey(c.hk), cp * US)
  {
    hide UnitsAt, ToUnits, ToAlpha, LossIs, WholeRaoOf;
    var left := AlphaOf(d, Hotkey(c.hk), cp, p) - loss - w.market.open(Hotkey(c.hk), cp);
    var free := if left > 0.0 then left else 0.0;
    var most := if free < c.amount then free else c.amount;
    WithdrawalLeavesLoss(d, w, cp, p, c, loss, free, most, cp * US);
  }

  // ---------------------------------------------------------------- the claims of a span

  /** `x` comes before `y`: by window, then receipt time, then key. */
  predicate Precedes(x: Claim, y: Claim)
  {
    || x.w < y.w
    || (x.w == y.w && x.tRecv < y.tRecv)
    || (x.w == y.w && x.tRecv == y.tRecv && x.key.hk < y.key.hk)
    || (x.w == y.w && x.tRecv == y.tRecv && x.key.hk == y.key.hk && x.key.seqNo < y.key.seqNo)
  }

  /** A checkpoint applies exactly the claims of the kinds received after the one before it and by its own time, in the
      order of their windows, receipt times and keys. */
  lemma SpanClaimsInOrder(claims: seq<Claim>, kinds: set<Kind>, cp: int)
    requires Keyed(claims)
    ensures var cs := Claims(claims, kinds, cp);
            && (forall c :: c in cs <==> c in claims && c.kind in kinds && (cp - 900) * 1_000_000 < c.tRecv <= cp * 1_000_000)
            && (forall i, j :: 0 <= i < j < |cs| ==> Precedes(cs[i], cs[j]))
  {
    var cs, f := Claims(claims, kinds, cp), Filter(OfKinds(kinds, cp), claims);
    FilterElements(OfKinds(kinds, cp), claims);
    SortElements(ClaimLeq, f);
    ClaimOrder();
    SortOrdered(ClaimLeq, f);
    ClaimsOfSpan(claims, kinds, cp);
    forall i, j | 0 <= i < j < |cs| ensures Precedes(cs[i], cs[j]) {
      assert ClaimLeq(cs[i], cs[j]) && cs[i].key != cs[j].key;
    }
  }
}
