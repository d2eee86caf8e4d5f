/**
 Every operation on the ledger keeps it whole: units are conserved, no balance goes below zero at any instant,
 and the requests say what was debited. Debits must be posted in time order, which is what the interlock of
 checkpoints and settlement provides.
 */
module VaultBalances {
  import opened Wrappers
  import opened Sums
  import opened Vault
  import opened VaultLaws

  // ---------------------------------------------------------------- the invariant

  /** No row after `t` takes units away. */
  ghost predicate DebitsBy(l: Ledger, t: int)
  {
    forall k :: k in l && l[k].units < 0.0 ==> l[k].t <= t
  }

  /** At every instant every entity, the reserve included, holds at least nothing. */
  ghost predicate NeverNegative(l: Ledger)
  {
    forall e, t :: UnitsAt(l, e, t) >= 0.0
  }

  predicate RequestSound(r: Request, ch: Chain)
  {
    && r.approved >= 0.0
    && (r.approved > 0.0 <==> r.status in {Approved, Default, Released})
    && (r.approved > 0.0 ==> PriceAt(ch, r.cp).Some?)
    && (r.status == Released <==> r.releasedBy.Some?)
    && (r.releasedBy.Some? ==>
          && r.cp <= ch.blockTime(r.releasedBy.value.0)
          && r.releasedAlpha == ch.releaseAlpha(r.releasedBy.value, r.entity) > 0.0)
  }

  /** A request holds an approved amount until one transfer, used by no other request, releases it. */
  ghost predicate RequestsSound(requests: map<ReqKey, Request>, ch: Chain)
  {
    && (forall k :: k in requests ==> RequestSound(requests[k], ch))
    && (forall j, k :: (j in requests && k in requests && requests[j].releasedBy.Some?
                        && requests[j].releasedBy == requests[k].releasedBy) ==> j == k)
  }

  ghost predicate Whole(db: Db, ch: Chain, t: int)
  {
    && Balanced(db, ch)
    && CreditsArrived(db.ledger, ch)
    && NeverNegative(db.ledger)
    && DebitsBy(db.ledger, t)
    && RequestsSound(db.requests, ch)
  }

  lemma WholeLater(db: Db, ch: Chain, t: int, later: int)
    requires Whole(db, ch, t) && t <= later
    ensures Whole(db, ch, later)
  {
    hide Balanced, CreditsArrived, NeverNegative, RequestsSound;
  }

  lemma WholeHolds(db: Db, ch: Chain, t: int, e: Entity, at: int, p: Price)
    requires Whole(db, ch, t)
    ensures UnitsAt(db.ledger, e, at) >= 0.0 && ToAlpha(UnitsAt(db.ledger, e, at), p) >= 0.0
  {
    hide Balanced, CreditsArrived, RequestsSound, UnitsAt;
    AlphaMonotone(0.0, UnitsAt(db.ledger, e, at), p);
  }

  lemma EmptyIsWhole(ch: Chain, t: int)
    ensures Whole(EmptyDb, ch, t)
  {
    assert NeverNegative(EmptyDb.ledger);
    assert SweepRefs(EmptyDb.ledger) == {};
  }

  // ---------------------------------------------------------------- rows and balances

  lemma LaterUnits(l: Ledger, e: Entity, t: int, later: int)
    requires DebitsBy(l, t) && t <= later
    ensures UnitsAt(l, e, t) <= UnitsAt(l, e, later)
  {
    SumAtMost(l.Keys, UnitsTerm(l, e, t), UnitsTerm(l, e, later));
  }

  lemma PostGain(l: Ledger, k: LKey, row: Row, t: int)
    requires k !in l && row.units >= 0.0 && NeverNegative(l) && DebitsBy(l, t)
    ensures NeverNegative(Post(l, k, row)) && DebitsBy(Post(l, k, row), t)
  {
    hide UnitsAt;
    forall e, at ensures UnitsAt(Post(l, k, row), e, at) >= 0.0 {
      PostUnits(l, k, row, e, at);
    }
  }

  /** A debit no larger than the balance at its time, with no later debit in the ledger, is covered for ever. */
  lemma PostSpend(l: Ledger, k: LKey, row: Row)
    requires k !in l && NeverNegative(l) && DebitsBy(l, row.t)
    requires row.units < 0.0 && -row.units <= UnitsAt(l, row.entity, row.t)
    ensures NeverNegative(Post(l, k, row)) && DebitsBy(Post(l, k, row), row.t)
  {
    hide UnitsAt;
    forall e, at ensures UnitsAt(Post(l, k, row), e, at) >= 0.0 {
      PostUnits(l, k, row, e, at);
      if e == row.entity && row.t <= at {
        LaterUnits(l, e, row.t, at);
      }
    }
  }

  lemma GainRows(l: Ledger, n: Ledger, c: Claim, at: int, t: int)
    requires SweepRows(l, n, c, at) && NeverNegative(l) && DebitsBy(l, t)
    ensures NeverNegative(n) && DebitsBy(n, t)
  {
    forall e, s ensures UnitsAt(n, e, s) >= 0.0 {
      UnitsGrow(l, n, c, at, e, s);
      assert UnitsAt(l, e, s) >= 0.0;
    }
  }

  lemma UnitsGrow(l: Ledger, n: Ledger, c: Claim, at: int, e: Entity, s: int)
    requires SweepRows(l, n, c, at)
    ensures UnitsAt(l, e, s) <= UnitsAt(n, e, s)
  {
    var f := (k: LKey) => if k in l then UnitsTerm(l, e, s)(k) else 0.0;
    SumCongruent(l.Keys, UnitsTerm(l, e, s), f);
    SumOverSupport(l.Keys, n.Keys, f);
    SumAtMost(n.Keys, f, UnitsTerm(n, e, s));
  }

  // ---------------------------------------------------------------- phase A

  lemma DepositKeepsWhole(db: Db, ch: Chain, c: Claim, t: int)
    requires Whole(db, ch, t) && Dep(c.key) !in db.ledger
    ensures Whole(DepositOne(db, ch, c), ch, t)
  {
    DepositKeepsCredits(db, ch, c);
    var l, n := db.ledger, DepositOne(db, ch, c).ledger;
    if n != l {
      UnitsOfAlpha(n[Dep(c.key)].alpha, ch.price(c.block).value);
      hide ToUnits, Timely, CreditsArrived, RefUsed, NeverNegative, DebitsBy, RequestsSound, Total, Inflow, Debits;
      PostGain(l, Dep(c.key), n[Dep(c.key)], t);
      PostTotalInflow(l, Dep(c.key), n[Dep(c.key)]);
    }
  }

  lemma ReleaseKeepsWhole(db: Db, ch: Chain, c: Claim, t: int)
    requires Whole(db, ch, t)
    ensures Whole(ReleaseOne(db, ch, c), ch, t)
  {
    hide CreditsArrived, NeverNegative, DebitsBy, Total, Inflow, Debits;
    var n := ReleaseOne(db, ch, c);
    if n != db {
      SameDebits(ch, db.requests, n.requests);
      ReleaseKeepsRequests(db, ch, c);
    }
  }

  lemma ReleaseKeepsRequests(db: Db, ch: Chain, c: Claim)
    requires RequestsSound(db.requests, ch)
    ensures RequestsSound(ReleaseOne(db, ch, c).requests, ch)
  {
    var n := ReleaseOne(db, ch, c).requests;
    if n != db.requests {
      var x := (c.block, c.ext);
      assert forall k :: k in db.requests ==> db.requests[k].releasedBy != Some(x);
      assert RequestSound(n[c.ref], ch);
      forall k | k in n ensures RequestSound(n[k], ch) {
        if k != c.ref {
          assert n[k] == db.requests[k];
        }
      }
    }
  }

  // ---------------------------------------------------------------- phase B

  lemma SweepKeepsWhole(db: Db, w: World, cp: int, c: Claim, t: int)
    requires Whole(db, w.ch, t) && forall e :: Em(c.key, e) !in db.ledger
    ensures Whole(SweepClaim(db, w, cp, c), w.ch, t)
  {
    hide SweepOne, Total, Inflow, Debits, CreditsArrived, NeverNegative, DebitsBy, RequestsSound, SweepRows;
    SweepKeepsCredits(db.ledger, w, cp, c);
    SweepOneAdds(db.ledger, w, cp, c);
    GainRows(db.ledger, SweepOne(db.ledger, w, cp, c), c, cp * US, t);
  }

  /** What may be taken: the locked part and the approved amount together never exceed the balance. */
  lemma RoomBounds(db: Db, w: World, e: Entity, cp: int, p: Price, c: Claim)
    requires UnitsAt(db.ledger, e, cp * US) >= 0.0
    ensures var r := RoomOf(db, w.market, e, cp, p);
            var ok := ApprovedFor(r, c);
            && 0.0 <= r.lk && 0.0 <= ok <= r.avail && r.lk + ok <= r.bal
            && r.bal == ToAlpha(UnitsAt(db.ledger, e, cp * US), p)
            && (r.avail > 0.0 ==> r.lk + r.opn + ok <= r.bal)
  {
    AlphaMonotone(0.0, UnitsAt(db.ledger, e, cp * US), p);
    hide UnitsAt, ToAlpha, FloorRao;
    var r := RoomOf(db, w.market, e, cp, p);
    FloorRaoBounds(Min(if c.kind == Exit then r.avail else c.amount, r.avail));
  }

  /** A debit of alpha within what the balance is worth. */
  lemma PostAlphaSpend(l: Ledger, k: LKey, row: Row, p: Price)
    requires k !in l && NeverNegative(l) && DebitsBy(l, row.t)
    requires row.alpha < 0.0 && row.units == -ToUnits(-row.alpha, p)
    requires -row.alpha <= ToAlpha(UnitsAt(l, row.entity, row.t), p)
    ensures NeverNegative(Post(l, k, row)) && DebitsBy(Post(l, k, row), row.t)
  {
    UnitsOfAlpha(-row.alpha, p);
    SpendWithin(UnitsAt(l, row.entity, row.t), -row.alpha, p);
    hide UnitsAt, ToUnits, ToAlpha, NeverNegative, DebitsBy;
    PostSpend(l, k, row);
  }

  /** The balance, in alpha, after a row at or before `t`. */
  lemma PostAlpha(l: Ledger, k: LKey, row: Row, t: int, p: Price)
    requires k !in l && row.t <= t && row.units == ToUnits(row.alpha, p)
    ensures ToAlpha(UnitsAt(Post(l, k, row), row.entity, t), p) == ToAlpha(UnitsAt(l, row.entity, t), p) + row.alpha
  {
    PostUnits(l, k, row, row.entity, t);
    AlphaAdd(UnitsAt(l, row.entity, t), row.units, p);
    UnitsOfAlpha(row.alpha, p);
  }

  lemma UnitsNegate(a: real, p: Price)
    ensures ToUnits(-a, p) == -ToUnits(a, p)
  {
  }

  lemma AddSoundRequest(requests: map<ReqKey, Request>, k: ReqKey, r: Request, ch: Chain)
    requires k !in requests && RequestsSound(requests, ch) && RequestSound(r, ch) && r.releasedBy.None?
    ensures RequestsSound(AddRequest(requests, k, r), ch)
  {
    hide RequestSound;
  }

  /** A debit and the request that records it. */
  lemma DebitKeepsWhole(db: Db, ch: Chain, k: LKey, row: Row, rk: ReqKey, r: Request, p: Price)
    requires Whole(db, ch, row.t) && k !in db.ledger && rk !in db.requests
    requires PriceAt(ch, r.cp) == Some(p) && RequestSound(r, ch) && r.releasedBy.None? && r.approved > 0.0
    requires row.alpha == -r.approved && row.units == -ToUnits(r.approved, p) && !IsInflow(row)
    requires r.approved <= ToAlpha(UnitsAt(db.ledger, row.entity, row.t), p)
    ensures Whole(db.(ledger := Post(db.ledger, k, row), requests := AddRequest(db.requests, rk, r)), ch, row.t)
  {
    assert DebitOf(ch, r) == ToUnits(r.approved, p);
    hide UnitsAt, ToUnits, ToAlpha, NeverNegative, DebitsBy, CreditsArrived, RequestsSound, Total, Inflow, Debits,
         RequestSound, DebitOf;
    PostAlphaSpend(db.ledger, k, row, p);
    PostTotalInflow(db.ledger, k, row);
    PostTransfer(db.ledger, k, row, ch);
    AddDebit(ch, db.requests, rk, r);
    AddSoundRequest(db.requests, rk, r, ch);
  }

  /** A request that was approved nothing. */
  lemma RefusalKeepsWhole(db: Db, ch: Chain, rk: ReqKey, r: Request, t: int)
    requires Whole(db, ch, t) && rk !in db.requests && RequestSound(r, ch) && r.releasedBy.None? && r.approved == 0.0
    ensures Whole(db.(requests := AddRequest(db.requests, rk, r)), ch, t)
  {
    assert DebitOf(ch, r) == 0.0;
    hide NeverNegative, DebitsBy, CreditsArrived, RequestsSound, Total, Inflow, Debits, RequestSound, DebitOf;
    AddDebit(ch, db.requests, rk, r);
    AddSoundRequest(db.requests, rk, r, ch);
  }

  /** A transfer of alpha from one entity to another at one time: zero-sum in units. */
  lemma TransferKeepsWhole(db: Db, ch: Chain, ko: LKey, out: Row, ki: LKey, into: Row, p: Price)
    requires Whole(db, ch, out.t) && ko !in db.ledger && ki !in db.ledger && ko != ki
    requires !IsInflow(out) && !IsInflow(into)
    requires into.alpha > 0.0 && into.units == ToUnits(into.alpha, p)
    requires out.alpha == -into.alpha && out.units == -into.units
    requires into.alpha <= ToAlpha(UnitsAt(db.ledger, out.entity, out.t), p)
    ensures Whole(db.(ledger := Post(Post(db.ledger, ko, out), ki, into)), ch, out.t)
    ensures Total(Post(Post(db.ledger, ko, out), ki, into)) == Total(db.ledger)
  {
    UnitsOfAlpha(into.alpha, p);
    hide UnitsAt, ToUnits, ToAlpha, NeverNegative, DebitsBy, CreditsArrived, RequestsSound, Total, Inflow, Debits;
    var l1 := Post(db.ledger, ko, out);
    PostAlphaSpend(db.ledger, ko, out, p);
    PostTotalInflow(db.ledger, ko, out);
    PostTransfer(db.ledger, ko, out, ch);
    PostGain(l1, ki, into, out.t);
    PostTotalInflow(l1, ki, into);
    PostTransfer(l1, ki, into, ch);
  }

  ghost predicate NoRows(db: Db, key: Key)
  {
    && Wd(key) !in db.ledger && Forfeit(key) !in db.ledger && ForfeitIn(key) !in db.ledger
    && OfClaim(key) !in db.requests
  }

  lemma RequestKeepsWhole(db: Db, w: World, cp: int, price: Option<Price>, c: Claim)
    requires Whole(db, w.ch, cp * US) && PriceAt(w.ch, cp) == price && NoRows(db, c.key)
    ensures Whole(RequestOne(db, w, cp, price, c), w.ch, cp * US)
  {
    hide Whole, RoomOf, ApprovedFor, ToUnits, ToAlpha, UnitsAt;
    var e := Hotkey(c.hk);
    if price.None? {
      RefusalKeepsWhole(db, w.ch, OfClaim(c.key), Request(e, c.amount, cp, 0.0, Refused, None, 0.0), cp * US);
    } else {
      var p := price.value;
      var db1 := ApproveOne(db, w, cp, p, c);
      ApproveKeepsWhole(db, w, cp, p, c);
      var r := RoomOf(db, w.market, e, cp, p);
      if c.kind == Exit && r.lk > 0.0 {
        ForfeitKeepsWhole(db, w, cp, p, c);
      } else {
        ExitsDoNotMatter(db1, RequestOne(db, w, cp, price, c), w.ch, cp * US);
      }
    }
  }

  lemma ExitsDoNotMatter(a: Db, b: Db, ch: Chain, t: int)
    requires Whole(a, ch, t) && a.ledger == b.ledger && a.requests == b.requests
    ensures Whole(b, ch, t)
  {
  }

  lemma ApproveKeepsWhole(db: Db, w: World, cp: int, p: Price, c: Claim)
    requires Whole(db, w.ch, cp * US) && PriceAt(w.ch, cp) == Some(p) && NoRows(db, c.key)
    ensures Whole(ApproveOne(db, w, cp, p, c), w.ch, cp * US)
  {
    hide Whole, RoomOf, ApprovedFor, ToUnits, ToAlpha, UnitsAt;
    var e := Hotkey(c.hk);
    WholeHolds(db, w.ch, cp * US, e, cp * US, p);
    RoomBounds(db, w, e, cp, p, c);
    var ok := ApprovedFor(RoomOf(db, w.market, e, cp, p), c);
    var r := Request(e, c.amount, cp, ok, if ok > 0.0 then Approved else Refused, None, 0.0);
    if ok > 0.0 {
      DebitKeepsWhole(db, w.ch, Wd(c.key), Row(cp * US, e, -ToUnits(ok, p), -ok, WithdrawRow, (0, 0)), OfClaim(c.key), r, p);
    } else {
      RefusalKeepsWhole(db, w.ch, OfClaim(c.key), r, cp * US);
    }
  }

  /** After the withdrawal part, the balance still holds what is locked. */
  lemma ApproveLeaves(db: Db, w: World, cp: int, p: Price, c: Claim)
    requires UnitsAt(db.ledger, Hotkey(c.hk), cp * US) >= 0.0 && NoRows(db, c.key)
    ensures var e, r := Hotkey(c.hk), RoomOf(db, w.market, Hotkey(c.hk), cp, p);
            ToAlpha(UnitsAt(ApproveOne(db, w, cp, p, c).ledger, e, cp * US), p) == r.bal - ApprovedFor(r, c) >= r.lk
  {
    hide RoomOf, ApprovedFor, ToUnits, ToAlpha, UnitsAt;
    var e := Hotkey(c.hk);
    RoomBounds(db, w, e, cp, p, c);
    var ok := ApprovedFor(RoomOf(db, w.market, e, cp, p), c);
    if ok > 0.0 {
      UnitsNegate(ok, p);
      PostAlpha(db.ledger, Wd(c.key), Row(cp * US, e, -ToUnits(ok, p), -ok, WithdrawRow, (0, 0)), cp * US, p);
    }
  }

  lemma ForfeitKeepsWhole(db: Db, w: World, cp: int, p: Price, c: Claim)
    requires Whole(db, w.ch, cp * US) && PriceAt(w.ch, cp) == Some(p) && NoRows(db, c.key)
    requires c.kind == Exit && RoomOf(db, w.market, Hotkey(c.hk), cp, p).lk > 0.0
    ensures Whole(RequestOne(db, w, cp, Some(p), c), w.ch, cp * US)
  {
    hide Whole, RoomOf, ApprovedFor, ToUnits, ToAlpha, UnitsAt;
    var e := Hotkey(c.hk);
    WholeHolds(db, w.ch, cp * US, e, cp * US, p);
    ApproveLeaves(db, w, cp, p, c);
    ApproveKeepsWhole(db, w, cp, p, c);
    ForfeitPosts(ApproveOne(db, w, cp, p, c), db, w, cp, p, c);
  }

  lemma ForfeitPosts(db1: Db, db: Db, w: World, cp: int, p: Price, c: Claim)
    requires db1 == ApproveOne(db, w, cp, p, c) && Whole(db1, w.ch, cp * US) && NoRows(db, c.key) && c.kind == Exit
    requires 0.0 < RoomOf(db, w.market, Hotkey(c.hk), cp, p).lk <= ToAlpha(UnitsAt(db1.ledger, Hotkey(c.hk), cp * US), p)
    ensures Whole(RequestOne(db, w, cp, Some(p), c), w.ch, cp * US)
  {
    hide Whole, RoomOf, ApprovedFor, ToUnits, ToAlpha, UnitsAt, Total;
    var lk := RoomOf(db, w.market, Hotkey(c.hk), cp, p).lk;
    var u := ToUnits(lk, p);
    var out, into := Row(cp * US, Hotkey(c.hk), -u, -lk, ForfeitRow, (0, 0)), Row(cp * US, Reserve, u, lk, ForfeitRow, (0, 0));
    TransferKeepsWhole(db1, w.ch, Forfeit(c.key), out, ForfeitIn(c.key), into, p);
    var n := RequestOne(db, w, cp, Some(p), c);
    assert n.ledger == Post(Post(db1.ledger, Forfeit(c.key), out), ForfeitIn(c.key), into);
    ExitsDoNotMatter(db1.(ledger := n.ledger), n, w.ch, cp * US);
  }

  /** After a checkpoint's defaults no approval is overdue, and only overdue approvals were defaulted. */
  lemma OnlyOverdueDefault(requests: map<ReqKey, Request>, cp: int)
    ensures var n := Defaults(requests, cp);
            && n.Keys == requests.Keys
            && (forall k :: k in n && n[k].status == Approved ==> cp < n[k].cp + 86_400)
            && (forall k :: k in n && n[k].status == Default && requests[k].status != Default ==>
                  requests[k].status == Approved && n[k].cp + 86_400 <= cp)
            && (forall k :: k in n ==> n[k] == requests[k].(status := n[k].status))
            && (forall k :: k in n && n[k].status != Default ==> n[k].status == requests[k].status)
  {
  }

  lemma DefaultsKeepWhole(db: Db, ch: Chain, cp: int, t: int)
    requires Whole(db, ch, t)
    ensures Whole(db.(requests := Defaults(db.requests, cp)), ch, t)
  {
    hide NeverNegative, DebitsBy, CreditsArrived, Total, Inflow, Debits;
    SameDebits(ch, db.requests, Defaults(db.requests, cp));
  }

  // ---------------------------------------------------------------- settlement

  lemma {:induction false} ReservePartsWithin(claims: map<Entity, real>, es: seq<Entity>, scale: real)
    requires 0.0 <= scale && forall i, j :: 0 <= i < j < |es| ==> es[i] != es[j]
    requires forall e :: e in es ==> e in claims
    ensures 0.0 <= ReserveParts(claims, es, scale) <= Scale(scale, Sum((set e | e in es), PositivePart(claims)))
    decreases |es|
  {
    hide Scale, Sum, ReservePart, PositivePart;
    if es == [] {
      NothingToSum(claims, es, scale);
    } else {
      var front, e := es[..|es| - 1], es[|es| - 1];
      ReservePartsWithin(claims, front, scale);
      LastIsNew(es);
      SumAddKey((set x | x in front), PositivePart(claims), e);
      Distribute(scale, PositivePart(claims)(e), Sum((set x | x in front), PositivePart(claims)));
      ReservePartBounds(claims, e, scale);
    }
  }

  lemma NothingToSum(claims: map<Entity, real>, es: seq<Entity>, scale: real)
    requires es == []
    ensures Scale(scale, Sum((set e | e in es), PositivePart(claims))) == 0.0
  {
    assert (set e | e in es) == {};
  }

  /** What the reserve pays in all. */
  function ReserveParts(claims: map<Entity, real>, es: seq<Entity>, scale: real): real
  {
    if es == [] then 0.0
    else ReserveParts(claims, es[..|es| - 1], scale) + Max(0.0, ReservePart(claims, es[|es| - 1], scale))
  }

  lemma ReservePartBounds(claims: map<Entity, real>, e: Entity, scale: real)
    requires 0.0 <= scale
    ensures 0.0 <= ReservePart(claims, e, scale) <= Scale(scale, PositivePart(claims)(e))
  {
    if e in claims && claims[e] > 0.0 {
      FlooredProduct(claims[e], scale);
      hide FloorRao, Scale;
    } else {
      Distribute(scale, 0.0, 0.0);
      hide FloorRao, Scale;
    }
  }

  lemma FlooredProduct(x: real, scale: real)
    requires x > 0.0 && scale >= 0.0
    ensures 0.0 <= FloorRao(x * scale) <= Scale(scale, x)
  {
    hide FloorRao;
    ProductBounds(x, scale);
    FloorRaoBounds(x * scale);
  }

  lemma ProductBounds(x: real, scale: real)
    requires x > 0.0 && scale >= 0.0
    ensures 0.0 <= x * scale == Scale(scale, x) && (scale <= 1.0 ==> x * scale <= x)
  {
  }

  /** The reserve never pays more than it holds. */
  lemma ReservePaysWithin(l: Ledger, tc: int, claims: map<Entity, real>, p: Price)
    ensures var scale, es := ReserveScale(l, tc, claims, p), HotkeysInOrder(claims.Keys);
            var have := ToAlpha(UnitsAt(l, Reserve, tc * US - 1), p);
            0.0 <= scale <= 1.0 && 0.0 <= ReserveParts(claims, es, scale) <= Max(0.0, have)
  {
    var es := HotkeysInOrder(claims.Keys);
    var scale := ReserveScale(l, tc, claims, p);
    var have, tot := ToAlpha(UnitsAt(l, Reserve, tc * US - 1), p), Sum(claims.Keys, PositivePart(claims));
    var paid := set e | e in es;
    if have > 0.0 && tot > 0.0 {
      ScaleBounds(tot, have);
    }
    ReservePartsWithin(claims, es, scale);
    hide ToAlpha, UnitsAt, Scale;
    var some := Sum(paid, PositivePart(claims));
    SumNonNegative(claims.Keys - paid, PositivePart(claims));
    SumSplit(claims.Keys, paid, PositivePart(claims));
    SumNonNegative(paid, PositivePart(claims));
    ScaleMonotone(scale, some, tot);
  }

  /** What the reserve pays falls short of its balance, or of the claims, by less than a rao for each claimant. */
  lemma ReservePaysNearlyAll(l: Ledger, tc: int, claims: map<Entity, real>, p: Price)
    requires forall e :: e in claims && claims[e] > 0.0 ==> e.Hotkey?
    ensures var es := HotkeysInOrder(claims.Keys);
            var have, tot := ToAlpha(UnitsAt(l, Reserve, tc * US - 1), p), Sum(claims.Keys, PositivePart(claims));
            ReserveParts(claims, es, ReserveScale(l, tc, claims, p)) >= Min(Max(0.0, have), tot) - |es| as real * RAO
  {
    var es := HotkeysInOrder(claims.Keys);
    var scale := ReserveScale(l, tc, claims, p);
    var have, tot := ToAlpha(UnitsAt(l, Reserve, tc * US - 1), p), Sum(claims.Keys, PositivePart(claims));
    HotkeysDistinct(claims.Keys);
    SumNonNegative(claims.Keys, PositivePart(claims));
    SumOverSupport((set e | e in es), claims.Keys, PositivePart(claims));
    if have > 0.0 && tot > 0.0 {
      ShareOfTotal(have, tot);
    } else {
      Distribute(0.0, 0.0, tot);
    }
    hide ToAlpha, UnitsAt, ReserveParts, HotkeysInOrder, ReserveScale, Scale;
    ReservePartsNearly(claims, es, scale);
  }

  lemma HotkeysDistinct(s: set<Entity>)
    ensures var o := HotkeysInOrder(s);
            (forall e :: e in o <==> e in s && e.Hotkey?) && (forall i, j :: 0 <= i < j < |o| ==> o[i] != o[j])
  {
    var o := HotkeysInOrder(s);
    assert forall e :: e in o <==> e in s && e.Hotkey?;
    assert forall i, j :: 0 <= i < j < |o| ==> o[i] != o[j];
  }

  lemma ShareOfTotal(have: real, tot: real)
    requires have > 0.0 && tot > 0.0
    ensures Scale(Min(1.0, have / tot), tot) == Min(have, tot) && Min(1.0, have / tot) >= 0.0
  {
    assert have / tot * tot == have;
    if have >= tot {
      assert have / tot >= 1.0;
    } else {
      assert have / tot < 1.0;
    }
  }

  lemma {:induction false} ReservePartsNearly(claims: map<Entity, real>, es: seq<Entity>, scale: real)
    requires 0.0 <= scale && forall i, j :: 0 <= i < j < |es| ==> es[i] != es[j]
    ensures ReserveParts(claims, es, scale) >= Scale(scale, Sum((set e | e in es), PositivePart(claims))) - |es| as real * RAO
    decreases |es|
  {
    hide Scale, Sum, ReservePart, PositivePart;
    if es == [] {
      NothingToSum(claims, es, scale);
    } else {
      var front, e := es[..|es| - 1], es[|es| - 1];
      ReservePartsNearly(claims, front, scale);
      LastIsNew(es);
      SumAddKey((set x | x in front), PositivePart(claims), e);
      Distribute(scale, PositivePart(claims)(e), Sum((set x | x in front), PositivePart(claims)));
      ReservePartNearly(claims, e, scale);
    }
  }

  lemma ReservePartNearly(claims: map<Entity, real>, e: Entity, scale: real)
    ensures Scale(scale, PositivePart(claims)(e)) - RAO <= Max(0.0, ReservePart(claims, e, scale))
  {
    if e in claims && claims[e] > 0.0 {
      FloorRaoBounds(claims[e] * scale);
      hide FloorRao;
    } else {
      Distribute(scale, 0.0, 0.0);
      hide FloorRao, Scale;
    }
  }

  lemma ScaleMonotone(c: real, x: real, y: real)
    requires c >= 0.0 && x <= y
    ensures Scale(c, x) <= Scale(c, y)
    ensures Scale(0.0, y) == 0.0
  {
  }

  lemma {:induction false} SumSplit<K(!new)>(all: set<K>, some: set<K>, f: K -> real)
    requires some <= all
    ensures Sum(all, f) == Sum(some, f) + Sum(all - some, f)
    decreases some
  {
    if some == {} {
      assert all - some == all;
    } else {
      var k :| k in some;
      SumTake(some, f, k);
      SumTake(all, f, k);
      SumSplit(all - {k}, some - {k}, f);
      assert all - {k} - (some - {k}) == all - some;
    }
  }

  /** Settlement posts at `tc`, after every earlier debit; `n` is the cycle being settled. */
  ghost predicate NoCycleRows(db: Db, cycle: nat, es: seq<Entity>)
  {
    forall e :: e in es ==> Rsv(cycle, e) !in db.ledger && RsvIn(cycle, e) !in db.ledger
  }

  lemma {:induction false} ReserveAllKeys(l: Ledger, cycle: nat, tc: int, claims: map<Entity, real>, es: seq<Entity>, scale: real, p: Price)
    ensures forall k :: k in ReserveAll(l, cycle, tc, claims, es, scale, p) && k !in l
                        ==> (k.Rsv? || k.RsvIn?) && k.cycle == cycle && k.entity in es
    decreases |es|
  {
    if es != [] {
      hide ReservePart, ToUnits;
      ReserveAllKeys(l, cycle, tc, claims, es[..|es| - 1], scale, p);
    }
  }

  lemma {:induction false} ReserveAllKeepsWhole(db: Db, ch: Chain, cycle: nat, tc: int, claims: map<Entity, real>,
                                                es: seq<Entity>, scale: real, p: Price)
    requires Whole(db, ch, tc * US) && NoCycleRows(db, cycle, es)
    requires forall i, j :: 0 <= i < j < |es| ==> es[i] != es[j]
    requires forall e :: e in es ==> e.Hotkey?
    requires 0.0 <= scale && ReserveParts(claims, es, scale) <= ToAlpha(UnitsAt(db.ledger, Reserve, tc * US), p)
    ensures var n := ReserveAll(db.ledger, cycle, tc, claims, es, scale, p);
            && Whole(db.(ledger := n), ch, tc * US)
            && ToAlpha(UnitsAt(n, Reserve, tc * US), p)
               == ToAlpha(UnitsAt(db.ledger, Reserve, tc * US), p) - ReserveParts(claims, es, scale)
            && Total(n) == Total(db.ledger)
    decreases |es|
  {
    hide Whole, ToAlpha, UnitsAt, ReservePart, ToUnits, Total, ReserveOne;
    if es == [] {
      assert db.(ledger := db.ledger) == db;
    } else {
      ReserveAllKeys(db.ledger, cycle, tc, claims, es[..|es| - 1], scale, p);
      var front, e := es[..|es| - 1], es[|es| - 1];
      LastIsNew(es);
      ReservePartBounds(claims, e, scale);
      ReserveAllKeepsWhole(db, ch, cycle, tc, claims, front, scale, p);
      var m := db.(ledger := ReserveAll(db.ledger, cycle, tc, claims, front, scale, p));
      var a := ReservePart(claims, e, scale);
      ReserveOneKeepsWhole(m, ch, cycle, tc, e, a, p);
      assert m.(ledger := ReserveOne(m.ledger, cycle, tc, e, a, p))
             == db.(ledger := ReserveAll(db.ledger, cycle, tc, claims, es, scale, p));
    }
  }

  lemma ReserveOneKeepsWhole(db: Db, ch: Chain, cycle: nat, tc: int, e: Entity, a: real, p: Price)
    requires Whole(db, ch, tc * US) && e.Hotkey? && Rsv(cycle, e) !in db.ledger && RsvIn(cycle, e) !in db.ledger
    requires 0.0 <= a <= ToAlpha(UnitsAt(db.ledger, Reserve, tc * US), p)
    ensures var n := ReserveOne(db.ledger, cycle, tc, e, a, p);
            && Whole(db.(ledger := n), ch, tc * US)
            && ToAlpha(UnitsAt(n, Reserve, tc * US), p) == ToAlpha(UnitsAt(db.ledger, Reserve, tc * US), p) - a
            && Total(n) == Total(db.ledger)
  {
    hide Whole, ToAlpha, UnitsAt, ToUnits, Total;
    if a == 0.0 {
      assert db.(ledger := db.ledger) == db;
    } else {
      var u := ToUnits(a, p);
      var out, into := Row(tc * US, Reserve, -u, -a, ReservePayRow, (0, 0)), Row(tc * US, e, u, a, ReservePayRow, (0, 0));
      TransferKeepsWhole(db, ch, Rsv(cycle, e), out, RsvIn(cycle, e), into, p);
      UnitsNegate(a, p);
      PostAlpha(db.ledger, Rsv(cycle, e), out, tc * US, p);
      PostUnits(Post(db.ledger, Rsv(cycle, e), out), RsvIn(cycle, e), into, Reserve, tc * US);
    }
  }

  /** Paying claims from the reserve moves units within the ledger and leaves every balance non-negative. */
  lemma ReservePayKeepsWhole(db: Db, ch: Chain, cycle: nat, tc: int, claims: map<Entity, real>)
    requires Whole(db, ch, tc * US - 1) && NoCycleRows(db, cycle, HotkeysInOrder(claims.Keys))
    ensures var n := ReservePay(db, ch, cycle, tc, claims);
            Whole(n, ch, tc * US) && Total(n.ledger) == Total(db.ledger)
  {
    hide Whole, UnitsAt, ToAlpha, ReserveScale, ReserveParts, Total, ReserveAll;
    WholeLater(db, ch, tc * US - 1, tc * US);
    var price := PriceAt(ch, tc);
    if price.Some? {
      var p := price.value;
      ReserveGrows(db, ch, tc, p);
      ReservePaysWithin(db.ledger, tc, claims, p);
      ReserveAllKeepsWhole(db, ch, cycle, tc, claims, HotkeysInOrder(claims.Keys), ReserveScale(db.ledger, tc, claims, p), p);
    }
  }

  lemma ReserveGrows(db: Db, ch: Chain, tc: int, p: Price)
    requires Whole(db, ch, tc * US - 1)
    ensures var held := ToAlpha(UnitsAt(db.ledger, Reserve, tc * US), p);
            ToAlpha(UnitsAt(db.ledger, Reserve, tc * US - 1), p) <= held && 0.0 <= held
  {
    hide Balanced, CreditsArrived, RequestsSound, UnitsAt, ToAlpha;
    WholeHolds(db, ch, tc * US - 1, Reserve, tc * US, p);
    LaterUnits(db.ledger, Reserve, tc * US - 1, tc * US);
    AlphaMonotone(UnitsAt(db.ledger, Reserve, tc * US - 1), UnitsAt(db.ledger, Reserve, tc * US), p);
  }

  ghost predicate NoPayoutRows(db: Db, cycle: nat, es: seq<Entity>)
  {
    forall e :: e in es ==> Payout(cycle, e) !in db.ledger && OfPayout(cycle, e) !in db.requests
  }

  /** A payout is at most the net and at most the balance. */
  lemma PayoutBounds(l: Ledger, e: Entity, tc: int, net: real, p: Price)
    requires FloorRao(net) > 0.0 && ToAlpha(UnitsAt(l, e, tc * US), p) >= 0.0
    ensures 0.0 <= PayoutOf(l, e, tc, net, p) <= ToAlpha(UnitsAt(l, e, tc * US), p)
    ensures PayoutOf(l, e, tc, net, p) <= net
  {
    hide UnitsAt, ToAlpha, FloorRao;
    FloorRaoBounds(net);
    FloorRaoBounds(Min(FloorRao(net), Max(ToAlpha(UnitsAt(l, e, tc * US), p), 0.0)));
  }

  lemma PayoutOneKeepsWhole(db: Db, ch: Chain, cycle: nat, tc: int, e: Entity, net: real, p: Price)
    requires Whole(db, ch, tc * US) && PriceAt(ch, tc) == Some(p)
    requires Payout(cycle, e) !in db.ledger && OfPayout(cycle, e) !in db.requests
    ensures Whole(PayoutOne(db, cycle, tc, e, net, p), ch, tc * US)
  {
    hide Whole, ToAlpha, UnitsAt, ToUnits, FloorRao, PayoutOf;
    if FloorRao(net) > 0.0 {
      WholeHolds(db, ch, tc * US, e, tc * US, p);
      PayoutBounds(db.ledger, e, tc, net, p);
      var a := PayoutOf(db.ledger, e, tc, net, p);
      var r := Request(e, FloorRao(net), tc, a, if a > 0.0 then Approved else Uncovered, None, 0.0);
      if a > 0.0 {
        DebitKeepsWhole(db, ch, Payout(cycle, e), Row(tc * US, e, -ToUnits(a, p), -a, PayoutRow, (0, 0)), OfPayout(cycle, e), r, p);
      } else {
        RefusalKeepsWhole(db, ch, OfPayout(cycle, e), r, tc * US);
      }
    }
  }

  lemma {:induction false} PayoutAllKeys(db: Db, cycle: nat, tc: int, nets: map<Entity, real>, es: seq<Entity>, p: Price)
    ensures var n := PayoutAll(db, cycle, tc, nets, es, p);
            && (forall k :: k in n.ledger && k !in db.ledger ==> k.Payout? && k.cycle == cycle && k.entity in es)
            && (forall k :: k in n.requests && k !in db.requests ==> k.OfPayout? && k.cycle == cycle && k.entity in es)
    decreases |es|
  {
    hide PayoutOne;
    if es != [] {
      var front, e := es[..|es| - 1], es[|es| - 1];
      PayoutAllKeys(db, cycle, tc, nets, front, p);
      PayoutOneKeys(PayoutAll(db, cycle, tc, nets, front, p), cycle, tc, e, Amounts(nets)(e), p);
    }
  }

  lemma PayoutOneKeys(db: Db, cycle: nat, tc: int, e: Entity, net: real, p: Price)
    ensures var n := PayoutOne(db, cycle, tc, e, net, p);
            && (forall k :: k in n.ledger && k !in db.ledger ==> k == Payout(cycle, e))
            && (forall k :: k in n.requests && k !in db.requests ==> k == OfPayout(cycle, e))
  {
    hide PayoutOf, ToUnits, FloorRao;
  }

  lemma {:induction false} PayoutAllKeepsWhole(db: Db, ch: Chain, cycle: nat, tc: int, nets: map<Entity, real>, es: seq<Entity>, p: Price)
    requires Whole(db, ch, tc * US) && PriceAt(ch, tc) == Some(p) && NoPayoutRows(db, cycle, es)
    requires forall i, j :: 0 <= i < j < |es| ==> es[i] != es[j]
    ensures Whole(PayoutAll(db, cycle, tc, nets, es, p), ch, tc * US)
    decreases |es|
  {
    hide Whole, PayoutOne, PriceAt, Amounts;
    if es != [] {
      var front, e := es[..|es| - 1], es[|es| - 1];
      LastIsNew(es);
      PayoutAllKeepsWhole(db, ch, cycle, tc, nets, front, p);
      PayoutAllKeys(db, cycle, tc, nets, front, p);
      PayoutOneKeepsWhole(PayoutAll(db, cycle, tc, nets, front, p), ch, cycle, tc, e, Amounts(nets)(e), p);
    }
  }
}
