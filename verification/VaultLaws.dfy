/**
 What each posting to the vault ledger keeps: units are conserved, credits never exceed what arrived on
 chain, and no balance goes below zero at any instant.
 */
module VaultLaws {
  import opened Wrappers
  import opened Sums
  import opened Vault

  // ---------------------------------------------------------------- rounding and prices

  lemma FloorRaoBounds(x: real)
    ensures FloorRao(x) <= x < FloorRao(x) + RAO
    ensures x >= 0.0 ==> FloorRao(x) >= 0.0
  {
    var y := x * 1000000000.0;
    assert y.Floor as real <= y < y.Floor as real + 1.0;
  }

  lemma UnitsOfAlpha(a: real, p: Price)
    ensures ToAlpha(ToUnits(a, p), p) == a
    ensures a > 0.0 ==> ToUnits(a, p) > 0.0
    ensures a == 0.0 ==> ToUnits(a, p) == 0.0
  {
  }

  lemma UnitsMonotone(a: real, b: real, p: Price)
    requires a <= b
    ensures ToUnits(a, p) <= ToUnits(b, p)
  {
    assert b / p - a / p == (b - a) / p;
    assert (b - a) / p >= 0.0;
  }

  lemma UnitsAdd(a: real, b: real, p: Price)
    ensures ToUnits(a + b, p) == ToUnits(a, p) + ToUnits(b, p)
  {
  }

  lemma AlphaAdd(u: real, v: real, p: Price)
    ensures ToAlpha(u + v, p) == ToAlpha(u, p) + ToAlpha(v, p)
    ensures ToAlpha(-u, p) == -ToAlpha(u, p)
    ensures ToAlpha(0.0, p) == 0.0
  {
  }

  lemma AlphaMonotone(u: real, v: real, p: Price)
    requires u <= v
    ensures ToAlpha(u, p) <= ToAlpha(v, p)
  {
  }

  /** Spending no more alpha than the balance is worth leaves the units non-negative. */
  lemma SpendWithin(u: real, a: real, p: Price)
    requires a <= ToAlpha(u, p)
    ensures ToUnits(a, p) <= u
  {
    assert ToUnits(ToAlpha(u, p), p) == u;
    UnitsMonotone(a, ToAlpha(u, p), p);
  }

  /** Fewer units at a higher price: what was approved is still covered. */
  lemma DearerUnits(a: real, p: Price, q: Price)
    requires a >= 0.0 && p <= q
    ensures ToUnits(a, q) <= ToUnits(a, p)
    ensures a <= ToAlpha(ToUnits(a, p), q)
  {
    assert ToAlpha(ToUnits(a, p), p) == a;
    assert a / p >= 0.0;
    assert a / p * q >= a / p * p;
    SpendWithin(ToUnits(a, p), a, q);
  }

  // ---------------------------------------------------------------- sums over the ledger

  lemma SumNewKey<K(!new)>(keys: set<K>, f: K -> real, g: K -> real, k: K)
    requires k !in keys && forall x :: x in keys ==> f(x) == g(x)
    ensures Sum(keys + {k}, g) == Sum(keys, f) + g(k)
  {
    SumAddKey(keys, g, k);
    SumCongruent(keys, f, g);
  }

  lemma PostUnits(l: Ledger, k: LKey, row: Row, e: Entity, t: int)
    requires k !in l
    ensures UnitsAt(Post(l, k, row), e, t) == UnitsAt(l, e, t) + (if row.entity == e && row.t <= t then row.units else 0.0)
  {
    var n := Post(l, k, row);
    SumNewKey(l.Keys, UnitsTerm(l, e, t), UnitsTerm(n, e, t), k);
    assert n.Keys == l.Keys + {k};
  }

  // ---------------------------------------------------------------- conservation

  predicate IsInflow(r: Row)
  {
    r.kind == DepositRow || r.kind == EmissionRow
  }

  function InflowTerm(l: Ledger): LKey -> real
  {
    (k: LKey) => if k in l && IsInflow(l[k]) then l[k].units else 0.0
  }

  /** Units credited for alpha that came from outside the ledger. */
  ghost function Inflow(l: Ledger): real
  {
    Sum(l.Keys, InflowTerm(l))
  }

  function AllTerm(l: Ledger): LKey -> real
  {
    (k: LKey) => if k in l then l[k].units else 0.0
  }

  /** Every unit in the ledger, the reserve's included. */
  ghost function Total(l: Ledger): real
  {
    Sum(l.Keys, AllTerm(l))
  }

  /** The units an approved request was debited. */
  function DebitOf(ch: Chain, r: Request): real
  {
    if r.approved > 0.0 && PriceAt(ch, r.cp).Some? then ToUnits(r.approved, PriceAt(ch, r.cp).value) else 0.0
  }

  function DebitTerm(ch: Chain, requests: map<ReqKey, Request>): ReqKey -> real
  {
    (k: ReqKey) => if k in requests then DebitOf(ch, requests[k]) else 0.0
  }

  ghost function Debits(ch: Chain, requests: map<ReqKey, Request>): real
  {
    Sum(requests.Keys, DebitTerm(ch, requests))
  }

  /** Units are neither made nor lost: what is held plus what was approved out is what came in. */
  ghost predicate Balanced(db: Db, ch: Chain)
  {
    Total(db.ledger) + Debits(ch, db.requests) == Inflow(db.ledger)
  }

  lemma PostTotalInflow(l: Ledger, k: LKey, row: Row)
    requires k !in l
    ensures Total(Post(l, k, row)) == Total(l) + row.units
    ensures Inflow(Post(l, k, row)) == Inflow(l) + (if IsInflow(row) then row.units else 0.0)
  {
    var n := Post(l, k, row);
    SumNewKey(l.Keys, AllTerm(l), AllTerm(n), k);
    SumNewKey(l.Keys, InflowTerm(l), InflowTerm(n), k);
    assert n.Keys == l.Keys + {k};
  }

  lemma AddDebit(ch: Chain, requests: map<ReqKey, Request>, k: ReqKey, r: Request)
    requires k !in requests
    ensures Debits(ch, AddRequest(requests, k, r)) == Debits(ch, requests) + DebitOf(ch, r)
  {
    hide DebitOf;
    var n := AddRequest(requests, k, r);
    SumNewKey(requests.Keys, DebitTerm(ch, requests), DebitTerm(ch, n), k);
    assert n.Keys == requests.Keys + {k};
  }

  lemma SameDebits(ch: Chain, a: map<ReqKey, Request>, b: map<ReqKey, Request>)
    requires a.Keys == b.Keys
    requires forall k :: k in a ==> a[k].approved == b[k].approved && a[k].cp == b[k].cp
    ensures Debits(ch, a) == Debits(ch, b)
  {
    hide ToUnits;
    SumCongruent(a.Keys, DebitTerm(ch, a), DebitTerm(ch, b));
  }

  // ---------------------------------------------------------------- what arrived on chain

  function SweepRefs(l: Ledger): set<Extrinsic>
  {
    set k | k in l && l[k].kind == EmissionRow :: l[k].ref
  }

  function SweepShares(ch: Chain): Extrinsic -> real
  {
    (x: Extrinsic) => if ch.price(x.0).Some? then ToUnits(ch.sweepAlpha(x), ch.price(x.0).value) else 0.0
  }

  function DepositShares(ch: Chain, r: Row): real
  {
    if r.entity.Hotkey? && ch.price(r.ref.0).Some? then ToUnits(ch.depositAlpha(r.ref, r.entity.n), ch.price(r.ref.0).value)
    else 0.0
  }

  function DepositTerm(ch: Chain, l: Ledger): LKey -> real
  {
    (k: LKey) => if k in l && l[k].kind == DepositRow then DepositShares(ch, l[k]) else 0.0
  }

  ghost function DepositedShares(l: Ledger, ch: Chain): real
  {
    Sum(l.Keys, DepositTerm(ch, l))
  }

  ghost function SweptShares(l: Ledger, ch: Chain): real
  {
    Sum(SweepRefs(l), SweepShares(ch))
  }

  /** The shares that the credited extrinsics brought into the vault, each at the price of its own block. */
  ghost function Arrived(l: Ledger, ch: Chain): real
  {
    DepositedShares(l, ch) + SweptShares(l, ch)
  }

  predicate DepositExact(r: Row, ch: Chain)
  {
    r.entity.Hotkey? && ch.price(r.ref.0).Some? && 0.0 < r.alpha <= ch.depositAlpha(r.ref, r.entity.n)
    && r.units == ToUnits(r.alpha, ch.price(r.ref.0).value)
  }

  /** Each deposit extrinsic is credited once, for no more alpha than it moved, at its own block's price. */
  ghost predicate DepositsExact(l: Ledger, ch: Chain)
  {
    && (forall k :: k in l && l[k].kind == DepositRow ==> DepositExact(l[k], ch))
    && (forall j, k :: j in l && k in l && l[j].kind == DepositRow && l[k].kind == DepositRow && l[j].ref == l[k].ref ==> j == k)
  }

  ghost predicate CreditsArrived(l: Ledger, ch: Chain)
  {
    DepositsExact(l, ch) && Inflow(l) <= Arrived(l, ch)
  }

  lemma PostArrived(l: Ledger, k: LKey, row: Row, ch: Chain)
    requires k !in l
    ensures DepositedShares(Post(l, k, row), ch)
            == DepositedShares(l, ch) + (if row.kind == DepositRow then DepositShares(ch, row) else 0.0)
    ensures SweepRefs(Post(l, k, row)) == if row.kind == EmissionRow then SweepRefs(l) + {row.ref} else SweepRefs(l)
  {
    hide DepositShares;
    var n := Post(l, k, row);
    assert n.Keys == l.Keys + {k};
    SumNewKey(l.Keys, DepositTerm(ch, l), DepositTerm(ch, n), k);
    assert forall x :: x in l ==> n[x] == l[x];
    assert n[k] == row;
  }

  /** Rows that are no deposit leave the deposits as they are. */
  lemma PostKeepsDeposits(l: Ledger, k: LKey, row: Row, ch: Chain)
    requires k !in l && row.kind != DepositRow && DepositsExact(l, ch)
    ensures DepositsExact(Post(l, k, row), ch)
  {
    hide DepositExact;
  }

  /** Other rows leave what arrived and what came in alone. */
  lemma PostTransfer(l: Ledger, k: LKey, row: Row, ch: Chain)
    requires k !in l && !IsInflow(row) && CreditsArrived(l, ch)
    ensures CreditsArrived(Post(l, k, row), ch)
  {
    PostTotalInflow(l, k, row);
    PostArrived(l, k, row, ch);
    PostKeepsDeposits(l, k, row, ch);
  }

  lemma NewDeposit(l: Ledger, k: LKey, row: Row, ch: Chain)
    requires k !in l && row.kind == DepositRow && DepositExact(row, ch) && !RefUsed(l, DepositRow, row.ref)
    requires CreditsArrived(l, ch)
    ensures CreditsArrived(Post(l, k, row), ch)
  {
    PostTotalInflow(l, k, row);
    PostArrived(l, k, row, ch);
    UnitsMonotone(row.alpha, ch.depositAlpha(row.ref, row.entity.n), ch.price(row.ref.0).value);
    var n := Post(l, k, row);
    assert DepositsExact(n, ch) by {
      hide DepositExact;
      forall j | j in l && l[j].kind == DepositRow ensures l[j].ref != row.ref {
      }
    }
  }

  /** A deposit is credited to its claimant at its receipt, for the smaller of what was claimed and what was moved,
      unless its extrinsic was used, the claim came too early or too late, or there is nothing to credit. */
  lemma DepositCredits(db: Db, ch: Chain, c: Claim)
    requires Dep(c.key) !in db.ledger
    ensures var n, got := DepositOne(db, ch, c).ledger, ch.depositAlpha((c.block, c.ext), c.hk);
            if (exists k :: k in db.ledger && db.ledger[k].kind == DepositRow && db.ledger[k].ref == (c.block, c.ext))
               || !(c.tRecv / 1_000_000 - 86_400 <= ch.blockTime(c.block) <= c.tRecv / 1_000_000)
               || got <= 0.0 || ch.price(c.block).None?
            then n == db.ledger
            else
              var r := if Dep(c.key) in n then n[Dep(c.key)] else Row(0, Reserve, 0.0, 0.0, DepositRow, (0, 0));
              && n.Keys == db.ledger.Keys + {Dep(c.key)}
              && r.entity == Hotkey(c.hk) && r.t == c.tRecv && r.alpha <= c.amount && r.alpha <= got
              && (r.alpha == c.amount || r.alpha == got) && ToAlpha(r.units, ch.price(c.block).value) == r.alpha
  {
    hide ToUnits, ToAlpha;
    var got := ch.depositAlpha((c.block, c.ext), c.hk);
    if ch.price(c.block).Some? {
      UnitsOfAlpha(Min(c.amount, got), ch.price(c.block).value);
    }
  }

  lemma DepositKeepsCredits(db: Db, ch: Chain, c: Claim)
    requires Dep(c.key) !in db.ledger && CreditsArrived(db.ledger, ch)
    ensures CreditsArrived(DepositOne(db, ch, c).ledger, ch)
  {
    hide ToUnits, Timely, CreditsArrived, RefUsed;
    var l, n := db.ledger, DepositOne(db, ch, c).ledger;
    if n != l {
      NewDeposit(l, Dep(c.key), n[Dep(c.key)], ch);
    }
  }

  // ---------------------------------------------------------------- a sweep

  /** The ledger grew by emission rows of this claim only. */
  ghost predicate SweepRows(l: Ledger, n: Ledger, c: Claim, t: int)
  {
    && (forall k :: k in l ==> k in n && n[k] == l[k])
    && (forall k :: k in n && k !in l ==> k.Em? && k.key == c.key && SweepRow(n[k], c, t) && n[k].entity == k.entity)
  }

  predicate SweepRow(r: Row, c: Claim, t: int)
  {
    r.kind == EmissionRow && r.ref == (c.block, c.ext) && r.t == t && r.units > 0.0 && r.alpha > 0.0
  }

  lemma NoSweepRows(l: Ledger, c: Claim, t: int)
    ensures SweepRows(l, l, c, t)
  {
  }

  lemma SweepRowsCompose(l: Ledger, m: Ledger, c: Claim, t: int, e: Entity, row: Row)
    requires SweepRows(l, m, c, t) && Em(c.key, e) !in m && SweepRow(row, c, t) && row.entity == e
    ensures SweepRows(l, Post(m, Em(c.key, e), row), c, t)
  {
    hide SweepRow;
  }

  lemma CreditOneAdds(l: Ledger, c: Claim, t: int, e: Entity, a: real, p: Price)
    requires Em(c.key, e) !in l
    ensures var n := CreditOne(l, c, t, e, a, p);
            && Total(n) == Total(l) + ToUnits(Max(0.0, a), p)
            && Inflow(n) == Inflow(l) + ToUnits(Max(0.0, a), p)
  {
    UnitsOfAlpha(a, p);
    UnitsOfAlpha(0.0, p);
    hide ToUnits;
    if a > 0.0 {
      PostTotalInflow(l, Em(c.key, e), Row(t, e, ToUnits(a, p), a, EmissionRow, (c.block, c.ext)));
    }
  }

  /** Every credited entity is one of `es`. */
  ghost predicate CreditedAmong(l: Ledger, c: Claim, es: seq<Entity>)
  {
    forall e :: Em(c.key, e) in l ==> e in es
  }

  lemma {:induction false} CreditAllAdds(l: Ledger, c: Claim, t: int, owed: map<Entity, real>, es: seq<Entity>, scale: real, p: Price)
    requires CreditedAmong(l, c, [])
    requires forall i, j :: 0 <= i < j < |es| ==> es[i] != es[j]
    ensures var n := CreditAll(l, c, t, owed, es, scale, p);
            && SweepRows(l, n, c, t) && CreditedAmong(n, c, es)
            && Total(n) == Total(l) + ToUnits(PartsOf(owed, es, scale), p)
            && Inflow(n) == Inflow(l) + ToUnits(PartsOf(owed, es, scale), p)
    decreases |es|
  {
    UnitsOfAlpha(0.0, p);
    if es != [] {
      var front, e := es[..|es| - 1], es[|es| - 1];
      CreditAllAdds(l, c, t, owed, front, scale, p);
      hide ToUnits, Part, Total, Inflow, SweepRows, Amounts;
      var m := CreditAll(l, c, t, owed, front, scale, p);
      assert Em(c.key, e) !in m;
      var a := Part(Amounts(owed)(e), scale);
      CreditOneAdds(m, c, t, e, a, p);
      UnitsAdd(PartsOf(owed, front, scale), Max(0.0, a), p);
      if a > 0.0 {
        UnitsOfAlpha(a, p);
        SweepRowsCompose(l, m, c, t, e, Row(t, e, ToUnits(a, p), a, EmissionRow, (c.block, c.ext)));
      }
    }
  }

  lemma {:induction false} PartsWithin(owed: map<Entity, real>, es: seq<Entity>, scale: real)
    requires 0.0 <= scale <= 1.0 && forall i, j :: 0 <= i < j < |es| ==> es[i] != es[j]
    requires forall e :: e in owed ==> owed[e] > 0.0
    requires forall e :: e in es ==> e in owed
    ensures 0.0 <= PartsOf(owed, es, scale) <= Scale(scale, Sum((set e | e in es), Amounts(owed)))
    decreases |es|
  {
    hide Scale, Part, Sum;
    if es == [] {
      NoParts(owed, es, scale);
    } else {
      var front, e := es[..|es| - 1], es[|es| - 1];
      PartsWithin(owed, front, scale);
      LastIsNew(es);
      SumAddKey((set x | x in front), Amounts(owed), e);
      Distribute(scale, owed[e], Sum((set x | x in front), Amounts(owed)));
      PartWithin(owed[e], scale);
    }
  }

  lemma NoParts(owed: map<Entity, real>, es: seq<Entity>, scale: real)
    requires es == []
    ensures Scale(scale, Sum((set e | e in es), Amounts(owed))) == 0.0
  {
    assert (set e | e in es) == {};
    Distribute(scale, 0.0, 0.0);
  }

  lemma LastIsNew(es: seq<Entity>)
    requires es != [] && forall i, j :: 0 <= i < j < |es| ==> es[i] != es[j]
    ensures var front, e := es[..|es| - 1], es[|es| - 1];
            e !in front && (set x | x in es) == (set x | x in front) + {e}
  {
    assert es == es[..|es| - 1] + [es[|es| - 1]];
  }

  lemma PartWithin(x: real, scale: real)
    requires x > 0.0 && 0.0 <= scale <= 1.0
    ensures 0.0 <= Part(x, scale) <= Scale(scale, x) <= x
  {
    assert 0.0 <= x * scale <= x;
    FloorRaoBounds(x * scale);
  }

  /** The parts of a sweep never exceed what arrived. */
  lemma SweepPartsWithin(owed: map<Entity, real>, got: real)
    requires got > 0.0 && (forall e :: e in owed ==> owed[e] > 0.0 && e.Hotkey?)
    ensures var scale := SweepScale(owed, got);
            0.0 <= PartsOf(owed, HotkeysInOrder(owed.Keys), scale) <= got
  {
    var es := HotkeysInOrder(owed.Keys);
    var scale, tot := SweepScale(owed, got), OwedTotal(owed);
    assert (set e | e in es) == owed.Keys;
    ScaleBounds(tot, got);
    PartsWithin(owed, es, scale);
  }

  lemma ScaleBounds(tot: real, got: real)
    requires got > 0.0
    ensures var scale := if tot > 0.0 then Min(1.0, got / tot) else 0.0;
            0.0 <= scale <= 1.0 && (tot >= 0.0 ==> Scale(scale, tot) <= got) && (tot <= 0.0 ==> scale == 0.0)
            && (scale >= 1.0 <==> 0.0 < tot <= got)
  {
    if tot > 0.0 {
      QuotientBounds(got, tot);
      assert Scale(1.0, tot) == tot;
      assert Scale(got / tot, tot) == got / tot * tot;
    }
    assert Scale(0.0, tot) == 0.0;
    hide Scale;
  }

  lemma QuotientBounds(x: real, y: real)
    requires x > 0.0 && y > 0.0
    ensures x / y * y == x && x / y > 0.0 && (x / y >= 1.0 <==> y <= x)
  {
    var q := x / y;
    assert q * y == x;
    FactorBounds(q, y);
  }

  lemma FactorBounds(q: real, y: real)
    requires y > 0.0
    ensures q >= 1.0 <==> q * y >= y
  {
    if q >= 1.0 {
      assert (q - 1.0) * y >= 0.0;
    } else {
      assert (1.0 - q) * y > 0.0;
    }
  }

  lemma OwedIsPositive(l: Ledger, m: Market, cycle: int, t: int)
    ensures forall e :: e in Outstanding(l, m, cycle, t) ==> Outstanding(l, m, cycle, t)[e] > 0.0 && e.Hotkey?
  {
  }

  lemma SweepKeepsDeposits(l: Ledger, n: Ledger, c: Claim, t: int, ch: Chain)
    requires SweepRows(l, n, c, t) && DepositsExact(l, ch)
    ensures DepositsExact(n, ch)
  {
    hide DepositExact;
  }

  lemma SweepKeepsDepositedShares(l: Ledger, n: Ledger, c: Claim, t: int, ch: Chain)
    requires SweepRows(l, n, c, t)
    ensures DepositedShares(n, ch) == DepositedShares(l, ch)
  {
    hide DepositShares;
    forall k | k in n.Keys - l.Keys ensures DepositTerm(ch, n)(k) == 0.0 {
    }
    SumOverSupport(l.Keys, n.Keys, DepositTerm(ch, n));
    SumCongruent(l.Keys, DepositTerm(ch, l), DepositTerm(ch, n));
  }

  lemma SweepRefsAfter(l: Ledger, n: Ledger, c: Claim, t: int)
    requires SweepRows(l, n, c, t)
    ensures SweepRefs(n) == if n == l then SweepRefs(l) else SweepRefs(l) + {(c.block, c.ext)}
  {
    if n != l {
      assert n.Keys != l.Keys;
      var k :| k in n && k !in l;
      assert n[k].ref == (c.block, c.ext);
      forall x | x in SweepRefs(l) ensures x in SweepRefs(n) {
        var j :| j in l && l[j].kind == EmissionRow && l[j].ref == x;
        assert n[j] == l[j];
      }
      forall x | x in SweepRefs(n) ensures x in SweepRefs(l) + {(c.block, c.ext)} {
        var j :| j in n && n[j].kind == EmissionRow && n[j].ref == x;
        if j in l {
          assert l[j].ref == x;
        }
      }
    }
  }

  /** What a sweep does to the books: its rows are emission rows of its own extrinsic, the units it adds come in
      from outside, and they are worth no more than the alpha that arrived. */
  lemma SweepOneAdds(l: Ledger, w: World, cp: int, c: Claim)
    requires forall e :: Em(c.key, e) !in l
    ensures var n := SweepOne(l, w, cp, c);
            && SweepRows(l, n, c, cp * US)
            && Total(n) - Total(l) == Inflow(n) - Inflow(l)
            && (n != l ==> !RefUsed(l, EmissionRow, (c.block, c.ext)) && w.ch.price(c.block).Some?
                           && Inflow(n) - Inflow(l) <= ToUnits(w.ch.sweepAlpha((c.block, c.ext)), w.ch.price(c.block).value))
  {
    hide RefUsed, Timely, ToUnits, Total, Inflow, Outstanding, SweepScale, SweepRow, CreditAll, PartsOf, SweepRows,
         HotkeysInOrder, Part;
    var ref := (c.block, c.ext);
    var got := w.ch.sweepAlpha(ref);
    var n := SweepOne(l, w, cp, c);
    NoSweepRows(l, c, cp * US);
    if n != l {
      var p := w.ch.price(c.block).value;
      var owed := Outstanding(l, w.market, w.market.closedBy(cp), cp * US);
      var es := HotkeysInOrder(owed.Keys);
      var scale := SweepScale(owed, got);
      OwedIsPositive(l, w.market, w.market.closedBy(cp), cp * US);
      SweepPartsWithin(owed, got);
      CreditAllAdds(l, c, cp * US, owed, es, scale, p);
      var l1 := CreditAll(l, c, cp * US, owed, es, scale, p);
      var parts := PartsOf(owed, es, scale);
      UnitsMonotone(parts, got, p);
      if got - parts > 0.0 && scale >= 1.0 {
        var row := Row(cp * US, Reserve, ToUnits(got - parts, p), got - parts, EmissionRow, ref);
        UnitsOfAlpha(got - parts, p);
        assert SweepRow(row, c, cp * US) by {
          SweepRowHolds(row, c, cp * US);
        }
        SweepRowsCompose(l, l1, c, cp * US, Reserve, row);
        PostTotalInflow(l1, Em(c.key, Reserve), row);
        UnitsAdd(parts, got - parts, p);
      }
    }
  }

  lemma SweepRowHolds(r: Row, c: Claim, t: int)
    requires r.kind == EmissionRow && r.ref == (c.block, c.ext) && r.t == t && r.units > 0.0 && r.alpha > 0.0
    ensures SweepRow(r, c, t)
  {
  }

  lemma SweepKeepsCredits(l: Ledger, w: World, cp: int, c: Claim)
    requires CreditsArrived(l, w.ch) && forall e :: Em(c.key, e) !in l
    ensures CreditsArrived(SweepOne(l, w, cp, c), w.ch)
  {
    hide ToUnits, SweepOne, Inflow, Total, DepositsExact;
    var ref := (c.block, c.ext);
    var n := SweepOne(l, w, cp, c);
    SweepOneAdds(l, w, cp, c);
    SweepKeepsDeposits(l, n, c, cp * US, w.ch);
    SweepKeepsDepositedShares(l, n, c, cp * US, w.ch);
    SweepRefsAfter(l, n, c, cp * US);
    if n != l {
      assert ref !in SweepRefs(l);
      SumAddKey(SweepRefs(l), SweepShares(w.ch), ref);
    }
  }
}
