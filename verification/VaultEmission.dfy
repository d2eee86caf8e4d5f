/**
 Emission that reaches the vault is credited against what the settled cycles paid (markets_vault.py:256-298).
 What is outstanding is read strictly before the checkpoint, so sweeps of one span do not see each other: with
 one sweep to a span nobody is ever credited more than was paid, with several they may be.
 */
module VaultEmission {
  import opened Wrappers
  import opened Sums
  import opened Vault
  import opened VaultLaws
  import opened VaultBalances
  import opened VaultRun
  import opened VaultSafety

  function EmissionTerm(l: Ledger, e: Entity): LKey -> real
  {
    (k: LKey) => if k in l && l[k].kind == EmissionRow && l[k].entity == e then l[k].alpha else 0.0
  }

  /** All the emission ever credited to an entity. */
  ghost function Credited(l: Ledger, e: Entity): real
  {
    Sum(l.Keys, EmissionTerm(l, e))
  }

  /** Emission rows were posted before `t`. */
  ghost predicate EmissionBefore(l: Ledger, t: int)
  {
    forall k :: k in l && l[k].kind == EmissionRow ==> l[k].t < t
  }

  /** Rows were added, none of them emission. */
  ghost predicate NoEmissionAdded(l: Ledger, n: Ledger)
  {
    && (forall k :: k in l ==> k in n && n[k] == l[k])
    && (forall k :: k in n && k !in l ==> n[k].kind != EmissionRow)
  }

  lemma CreditedIsBefore(l: Ledger, e: Entity, t: int)
    requires EmissionBefore(l, t)
    ensures CreditedBefore(l, e, t) == Credited(l, e)
  {
    SumCongruent(l.Keys, CreditTerm(l, e, t), EmissionTerm(l, e));
  }

  lemma CreditedKept(l: Ledger, n: Ledger, e: Entity)
    requires NoEmissionAdded(l, n)
    ensures Credited(n, e) == Credited(l, e)
  {
    SumOverSupport(l.Keys, n.Keys, EmissionTerm(n, e));
    SumCongruent(l.Keys, EmissionTerm(l, e), EmissionTerm(n, e));
  }

  lemma CreditedAfter(l: Ledger, k: LKey, row: Row, e: Entity)
    requires k !in l
    ensures Credited(Post(l, k, row), e) == Credited(l, e) + (if row.kind == EmissionRow && row.entity == e then row.alpha else 0.0)
  {
    var n := Post(l, k, row);
    SumNewKey(l.Keys, EmissionTerm(l, e), EmissionTerm(n, e), k);
    assert n.Keys == l.Keys + {k};
  }

  // ---------------------------------------------------------------- one sweep

  /** The share of each owed amount that a sweep credits; zero when it credits nothing. */
  ghost function ScaleOf(l: Ledger, w: World, cp: int, c: Claim): real
  {
    var ref := (c.block, c.ext);
    if RefUsed(l, EmissionRow, ref) || !Timely(w.ch, c) || w.ch.sweepAlpha(ref) <= 0.0 || w.ch.price(c.block).None? then 0.0
    else SweepScale(Owed(l, w, cp), w.ch.sweepAlpha(ref))
  }

  ghost function Owed(l: Ledger, w: World, cp: int): map<Entity, real>
  {
    Outstanding(l, w.market, w.market.closedBy(cp), cp * US)
  }

  lemma {:induction false} CreditAllCredits(l: Ledger, c: Claim, t: int, owed: map<Entity, real>, es: seq<Entity>, scale: real, p: Price, e: Entity)
    requires CreditedAmong(l, c, []) && (forall i, j :: 0 <= i < j < |es| ==> es[i] != es[j])
    ensures Credited(CreditAll(l, c, t, owed, es, scale, p), e)
            == Credited(l, e) + (if e in es then Max(0.0, Part(Amounts(owed)(e), scale)) else 0.0)
    decreases |es|
  {
    hide Credited, Part, Amounts, ToUnits, SweepRows, Total, Inflow;
    if es != [] {
      var front, last := es[..|es| - 1], es[|es| - 1];
      LastIsNew(es);
      CreditAllCredits(l, c, t, owed, front, scale, p, e);
      CreditAllAdds(l, c, t, owed, front, scale, p);
      var m := CreditAll(l, c, t, owed, front, scale, p);
      assert Em(c.key, last) !in m;
      var a := Part(Amounts(owed)(last), scale);
      if a > 0.0 {
        CreditedAfter(m, Em(c.key, last), Row(t, last, ToUnits(a, p), a, EmissionRow, (c.block, c.ext)), e);
      }
    }
  }

  /** A sweep credits a hotkey its share of what it is owed, rounded down, and nobody else. */
  lemma SweepOneCredits(l: Ledger, w: World, cp: int, c: Claim, e: Entity)
    requires (forall x :: Em(c.key, x) !in l) && e.Hotkey?
    ensures Credited(SweepOne(l, w, cp, c), e)
            == Credited(l, e) + (if e in Owed(l, w, cp) then Part(Owed(l, w, cp)[e], ScaleOf(l, w, cp, c)) else 0.0)
  {
    hide RefUsed, Timely, ToUnits, Credited, Outstanding, SweepScale, CreditAll, PartsOf, HotkeysInOrder, Part,
         CreditedAmong;
    var ref := (c.block, c.ext);
    var got := w.ch.sweepAlpha(ref);
    var owed := Owed(l, w, cp);
    OwedIsPositive(l, w.market, w.market.closedBy(cp), cp * US);
    if RefUsed(l, EmissionRow, ref) || !Timely(w.ch, c) || got <= 0.0 || w.ch.price(c.block).None? {
      NothingAtZero(owed, e);
    } else {
      var p := w.ch.price(c.block).value;
      var es := HotkeysInOrder(owed.Keys);
      var scale := SweepScale(owed, got);
      HotkeysListed(owed, e);
      NothingCredited(l, c);
      SweepScaleBounds(owed, got);
      CreditAllCredits(l, c, cp * US, owed, es, scale, p, e);
      if e in owed {
        PartWithin(owed[e], scale);
      }
      var l1 := CreditAll(l, c, cp * US, owed, es, scale, p);
      var left := got - PartsOf(owed, es, scale);
      if left > 0.0 && scale >= 1.0 {
        ReserveNotYet(l, c, cp * US, owed, es, scale, p);
        CreditedAfter(l1, Em(c.key, Reserve), Row(cp * US, Reserve, ToUnits(left, p), left, EmissionRow, ref), e);
      }
    }
  }

  lemma NothingAtZero(owed: map<Entity, real>, e: Entity)
    ensures e in owed ==> Part(owed[e], 0.0) == 0.0
  {
    if e in owed {
      assert owed[e] * 0.0 == 0.0;
    }
  }

  lemma HotkeysListed(owed: map<Entity, real>, e: Entity)
    requires e.Hotkey?
    ensures e in HotkeysInOrder(owed.Keys) <==> e in owed
    ensures forall i, j :: 0 <= i < j < |HotkeysInOrder(owed.Keys)| ==> HotkeysInOrder(owed.Keys)[i] != HotkeysInOrder(owed.Keys)[j]
  {
    HotkeysOnce(owed.Keys);
    hide HotkeysInOrder;
    assert e in HotkeysInOrder(owed.Keys) <==> e in owed.Keys && e.Hotkey?;
  }

  lemma NothingCredited(l: Ledger, c: Claim)
    requires forall x :: Em(c.key, x) !in l
    ensures CreditedAmong(l, c, [])
  {
  }

  lemma SweepScaleBounds(owed: map<Entity, real>, got: real)
    requires got > 0.0
    ensures 0.0 <= SweepScale(owed, got) <= 1.0
  {
    ScaleBounds(OwedTotal(owed), got);
  }

  lemma ReserveNotYet(l: Ledger, c: Claim, t: int, owed: map<Entity, real>, es: seq<Entity>, scale: real, p: Price)
    requires CreditedAmong(l, c, []) && (forall i, j :: 0 <= i < j < |es| ==> es[i] != es[j])
    requires es == HotkeysInOrder(owed.Keys)
    ensures Em(c.key, Reserve) !in CreditAll(l, c, t, owed, es, scale, p)
  {
    hide Total, Inflow, ToUnits, CreditAll, PartsOf, SweepRows;
    CreditAllAdds(l, c, t, owed, es, scale, p);
  }

  /** Sweeps of one span do not see each other. */
  lemma SweepKeepsOwed(l: Ledger, w: World, cp: int, c: Claim)
    requires forall x :: Em(c.key, x) !in l
    ensures Owed(SweepOne(l, w, cp, c), w, cp) == Owed(l, w, cp)
  {
    hide SweepOne, Total, Inflow, RefUsed, ToUnits;
    var n := SweepOne(l, w, cp, c);
    SweepOneAdds(l, w, cp, c);
    NewRowsUnseen(l, n, c, cp * US);
    hide CreditedBefore, SweepRows;
  }

  lemma NewRowsUnseen(l: Ledger, n: Ledger, c: Claim, t: int)
    requires SweepRows(l, n, c, t)
    ensures forall e :: CreditedBefore(n, e, t) == CreditedBefore(l, e, t)
  {
    forall e ensures CreditedBefore(n, e, t) == CreditedBefore(l, e, t) {
      SumOverSupport(l.Keys, n.Keys, CreditTerm(n, e, t));
      SumCongruent(l.Keys, CreditTerm(l, e, t), CreditTerm(n, e, t));
    }
  }

  // ---------------------------------------------------------------- the sweeps of a span

  /** The shares that the sweeps of a span credit, added up. */
  ghost function SpanScale(db: Db, w: World, cp: int, cs: seq<Claim>): real
  {
    if cs == [] then 0.0
    else SpanScale(db, w, cp, cs[..|cs| - 1]) + ScaleOf(Sweeps(db, w, cp, cs[..|cs| - 1]).ledger, w, cp, cs[|cs| - 1])
  }

  lemma {:induction false} SweepsCredit(db: Db, w: World, cp: int, cs: seq<Claim>, e: Entity, a: set<Key>, b: set<Key>, n: nat)
    requires Whole(db, w.ch, cp * US) && KeysFrom(db, a, b, n) && Keyed(cs) && KeysOf(cs) !! b && e.Hotkey?
    ensures var d := Sweeps(db, w, cp, cs);
            var owed, more := Owed(db.ledger, w, cp), Credited(d.ledger, e) - Credited(db.ledger, e);
            && Owed(d.ledger, w, cp) == owed
            && (e !in owed ==> more == 0.0)
            && (e in owed ==> Scale(SpanScale(db, w, cp, cs), owed[e]) - |cs| as real * RAO <= more <= Scale(SpanScale(db, w, cp, cs), owed[e]))
    decreases |cs|
  {
    hide Whole, KeysOf, SweepOne, KeysFrom, Owed, Credited, ScaleOf, Part, Scale;
    if cs != [] {
      var front, c := cs[..|cs| - 1], cs[|cs| - 1];
      FrontKeys(cs);
      SweepsCredit(db, w, cp, front, e, a, b, n);
      SweepsKeep(db, w, cp, front, cp * US, a, b, n);
      var d := Sweeps(db, w, cp, front);
      SweepFrom(d, w, cp, c, a, b + KeysOf(front), n);
      SweepOneCredits(d.ledger, w, cp, c, e);
      SweepKeepsOwed(d.ledger, w, cp, c);
      var owed, scale := Owed(db.ledger, w, cp), ScaleOf(d.ledger, w, cp, c);
      if e in owed {
        PartIsClose(owed[e], scale);
        ScaleAdds(SpanScale(db, w, cp, front), scale, owed[e]);
      }
    } else if e in Owed(db.ledger, w, cp) {
      ScaleAdds(0.0, 0.0, Owed(db.ledger, w, cp)[e]);
    }
  }

  lemma PartIsClose(x: real, scale: real)
    ensures Scale(scale, x) - RAO < Part(x, scale) <= Scale(scale, x)
  {
    FloorRaoBounds(x * scale);
  }

  lemma ScaleAdds(a: real, b: real, x: real)
    ensures Scale(a + b, x) == Scale(a, x) + Scale(b, x)
    ensures Scale(0.0, x) == 0.0 && Scale(1.0, x) == x
    ensures a <= b && x >= 0.0 ==> Scale(a, x) <= Scale(b, x)
  {
  }

  /** What the settled cycles paid an entity, as of the checkpoint. */
  ghost function PaidAt(m: Market, cp: int, e: Entity): real
  {
    Amounts(m.paidThrough(m.closedBy(cp)))(e)
  }

  /**
   When the shares of a span add up to at most one, nobody is credited more than was paid; when they exceed one
   by more than the rounding, everyone owed anything worth the difference is.
   */
  lemma SpanWithinPaid(db: Db, w: World, cp: int, cs: seq<Claim>, e: Entity, a: set<Key>, b: set<Key>, n: nat)
    requires Whole(db, w.ch, cp * US) && KeysFrom(db, a, b, n) && Keyed(cs) && KeysOf(cs) !! b && e.Hotkey?
    requires EmissionBefore(db.ledger, cp * US) && Credited(db.ledger, e) <= PaidAt(w.market, cp, e)
    ensures SpanScale(db, w, cp, cs) <= 1.0 ==> Credited(Sweeps(db, w, cp, cs).ledger, e) <= PaidAt(w.market, cp, e)
    ensures e in Owed(db.ledger, w, cp) && Scale(SpanScale(db, w, cp, cs) - 1.0, Owed(db.ledger, w, cp)[e]) > |cs| as real * RAO
            ==> Credited(Sweeps(db, w, cp, cs).ledger, e) > PaidAt(w.market, cp, e)
  {
    hide Whole, KeysOf, Sweeps, KeysFrom, Owed, Credited, CreditedBefore, Scale, PaidAt, EmissionBefore, SpanScale;
    SweepsCredit(db, w, cp, cs, e, a, b, n);
    CreditedIsBefore(db.ledger, e, cp * US);
    OwedIs(db.ledger, w, cp, e);
    var owed := Owed(db.ledger, w, cp);
    if e in owed {
      var all := SpanScale(db, w, cp, cs);
      ScaleAdds(all - 1.0, 1.0, owed[e]);
      ScaleAdds(all, 1.0, owed[e]);
    }
  }

  lemma OwedIs(l: Ledger, w: World, cp: int, e: Entity)
    requires e.Hotkey?
    ensures e in Owed(l, w, cp) ==> Owed(l, w, cp)[e] == PaidAt(w.market, cp, e) - CreditedBefore(l, e, cp * US) > 0.0
  {
  }

  /** A single sweep's share is at most one. */
  lemma OneSweepScale(db: Db, w: World, cp: int, cs: seq<Claim>)
    requires |cs| <= 1
    ensures SpanScale(db, w, cp, cs) <= 1.0
  {
    if |cs| == 1 {
      hide RefUsed, Timely, SweepScale, Owed;
      assert SpanScale(db, w, cp, cs[..0]) == 0.0;
      var l, c := Sweeps(db, w, cp, cs[..0]).ledger, cs[0];
      if w.ch.sweepAlpha((c.block, c.ext)) > 0.0 {
        SweepScaleBounds(Owed(l, w, cp), w.ch.sweepAlpha((c.block, c.ext)));
      }
    }
  }

  // ---------------------------------------------------------------- what is not owed

  /** When at least what is owed arrives, all of it is credited, what is left over to the reserve. */
  lemma SweepInFull(l: Ledger, w: World, cp: int, c: Claim)
    requires (forall x :: Em(c.key, x) !in l) && !RefUsed(l, EmissionRow, (c.block, c.ext)) && Timely(w.ch, c)
    requires w.ch.price(c.block).Some? && 0.0 < OwedTotal(Owed(l, w, cp)) <= w.ch.sweepAlpha((c.block, c.ext))
    ensures Total(SweepOne(l, w, cp, c)) == Total(l) + ToUnits(w.ch.sweepAlpha((c.block, c.ext)), w.ch.price(c.block).value)
  {
    hide RefUsed, Timely, ToUnits, Total, Inflow, Outstanding, OwedTotal, CreditAll, PartsOf, SweepRows, SweepScale,
         HotkeysInOrder, CreditedAmong;
    var ref := (c.block, c.ext);
    var got, p, owed := w.ch.sweepAlpha(ref), w.ch.price(c.block).value, Owed(l, w, cp);
    var es := HotkeysInOrder(owed.Keys);
    var scale := SweepScale(owed, got);
    FullScale(owed, got);
    OwedIsPositive(l, w.market, w.market.closedBy(cp), cp * US);
    SweepPartsWithin(owed, got);
    HotkeysOnce(owed.Keys);
    NothingCredited(l, c);
    CreditAllAdds(l, c, cp * US, owed, es, scale, p);
    var left := got - PartsOf(owed, es, scale);
    if left > 0.0 {
      ReserveNotYet(l, c, cp * US, owed, es, scale, p);
      PostTotalInflow(CreditAll(l, c, cp * US, owed, es, scale, p), Em(c.key, Reserve), Row(cp * US, Reserve, ToUnits(left, p), left, EmissionRow, ref));
      UnitsAdd(PartsOf(owed, es, scale), left, p);
    }
  }

  lemma FullScale(owed: map<Entity, real>, got: real)
    requires 0.0 < OwedTotal(owed) <= got
    ensures SweepScale(owed, got) == 1.0
  {
    ScaleBounds(OwedTotal(owed), got);
  }

  /** When nothing is owed, a sweep credits nobody, the reserve included: what arrived stays outside the ledger. */
  lemma SweepOfNothingOwed(l: Ledger, w: World, cp: int, c: Claim)
    requires Owed(l, w, cp) == map[]
    ensures SweepOne(l, w, cp, c) == l
  {
    hide RefUsed, Timely, ToUnits, Outstanding;
    var owed := Owed(l, w, cp);
    assert owed.Keys == {};
    assert OwedTotal(owed) == 0.0;
    assert HotkeysInOrder(owed.Keys) == [];
  }

  // ---------------------------------------------------------------- several sweeps in one span

  const TWICE_CHAIN := Chain(
    (t: int) => Some(1), (b: int) => 900, (b: int) => Some(1.0 as Price), (x: Extrinsic, hk: nat) => 0.0,
    (x: Extrinsic, e: Entity) => 0.0, (x: Extrinsic) => 1.0, (b: int) => 0.0)

  const TWICE_MARKET := Market(
    (t: int) => 0, (e: Entity, c: int) => None, (c: int) => map[Hotkey(0) := 1.0], (e: Entity, t: int) => 0.0)

  function TwiceSweep(n: int): Claim
  {
    Claim(Key(0, n), Sweep, 0, 1.0, 1, n, OfClaim(Key(0, n)), 0, 900 * US)
  }

  const TWICE := World([TwiceSweep(0), TwiceSweep(1)], TWICE_CHAIN, TWICE_MARKET)

  /** One alpha was paid, two sweeps of one alpha arrive in the same span, and two alpha are credited. */
  lemma TwoSweepsOvercredit()
    ensures PaidAt(TWICE.market, 900, Hotkey(0)) == 1.0
    ensures Credited(Sweeps(EmptyDb, TWICE, 900, TWICE.claims).ledger, Hotkey(0)) > 1.9
  {
    hide SweepOne, Credited, PaidAt;
    PaidOne();
    TwiceSweeps();
    TwiceOwed(TWICE, 900);
    NothingYet(Hotkey(0));
    SweepsOne(map[], 0);
    SweepsOne(SweepOne(map[], TWICE, 900, TwiceSweep(0)), 1);
  }

  lemma PaidOne()
    ensures PaidAt(TWICE.market, 900, Hotkey(0)) == 1.0
  {
  }

  /** One more sweep credits the alpha once more, and the next one cannot tell. */
  lemma SweepsOne(l: Ledger, n: int)
    requires Owed(l, TWICE, 900) == map[Hotkey(0) := 1.0]
    requires forall k :: k in l ==> k.Em? && k.key.seqNo < n && l[k].ref.1 < n
    ensures var m := SweepOne(l, TWICE, 900, TwiceSweep(n));
            && Credited(m, Hotkey(0)) > Credited(l, Hotkey(0)) + 1.0 - RAO
            && Owed(m, TWICE, 900) == map[Hotkey(0) := 1.0]
            && (forall k :: k in m ==> k.Em? && k.key.seqNo < n + 1 && m[k].ref.1 < n + 1)
  {
    hide SweepOne, Total, Inflow, Owed, Part, ScaleOf, Credited, RefUsed, Scale, ToUnits;
    var c := TwiceSweep(n);
    TwiceScale(l, n);
    SweepOneAdds(l, TWICE, 900, c);
    SweepKeepsOwed(l, TWICE, 900, c);
    SweepOneCredits(l, TWICE, 900, c, Hotkey(0));
    PartIsClose(1.0, 1.0);
    ScaleAdds(0.0, 0.0, 1.0);
  }

  lemma NothingYet(e: Entity)
    ensures Credited(map[], e) == 0.0
  {
  }

  lemma TwiceSweeps()
    ensures Sweeps(EmptyDb, TWICE, 900, TWICE.claims).ledger
            == SweepOne(SweepOne(map[], TWICE, 900, TwiceSweep(0)), TWICE, 900, TwiceSweep(1))
  {
    hide SweepOne;
    var cs := TWICE.claims;
    assert cs[..1] == [TwiceSweep(0)] && cs[..1][..0] == [];
  }

  lemma TwiceScale(l: Ledger, n: int)
    requires Owed(l, TWICE, 900) == map[Hotkey(0) := 1.0]
    requires forall k :: k in l ==> l[k].ref != (1, n)
    ensures ScaleOf(l, TWICE, 900, TwiceSweep(n)) == 1.0
  {
    hide Owed, OwedTotal;
    TwiceOwed(TWICE, 900);
    FullScale(map[Hotkey(0) := 1.0], 1.0);
  }

  lemma TwiceOwed(w: World, cp: int)
    requires w.market == TWICE_MARKET
    ensures Owed(map[], w, cp) == map[Hotkey(0) := 1.0] && OwedTotal(map[Hotkey(0) := 1.0]) == 1.0
  {
    var owed := map[Hotkey(0) := 1.0];
    SumTake(owed.Keys, Amounts(owed), Hotkey(0));
    assert owed.Keys - {Hotkey(0)} == {};
    assert CreditedBefore(map[], Hotkey(0), cp * US) == 0.0;
    assert Owed(map[], w, cp).Keys == {Hotkey(0)};
  }

  // ---------------------------------------------------------------- on every run

  lemma NoEmissionTrans(l: Ledger, m: Ledger, n: Ledger)
    requires NoEmissionAdded(l, m) && NoEmissionAdded(m, n)
    ensures NoEmissionAdded(l, n)
  {
  }

  lemma {:induction false} DepositsAddNone(db: Db, ch: Chain, cs: seq<Claim>)
    ensures NoEmissionAdded(db.ledger, Deposits(db, ch, cs).ledger)
    decreases |cs|
  {
    if cs != [] {
      hide ToUnits, Timely, RefUsed;
      DepositsAddNone(db, ch, cs[..|cs| - 1]);
    }
  }

  lemma {:induction false} RequestsAddNone(db: Db, w: World, cp: int, price: Option<Price>, cs: seq<Claim>)
    ensures NoEmissionAdded(db.ledger, Requests(db, w, cp, price, cs).ledger)
    decreases |cs|
  {
    hide RequestOne, NoEmissionAdded;
    NoneAdded(db.ledger);
    if cs != [] {
      var front, c := cs[..|cs| - 1], cs[|cs| - 1];
      RequestsAddNone(db, w, cp, price, front);
      var d := Requests(db, w, cp, price, front);
      RequestAddsNone(d, w, cp, price, c);
      NoEmissionTrans(db.ledger, d.ledger, RequestOne(d, w, cp, price, c).ledger);
    }
  }

  lemma NoneAdded(l: Ledger)
    ensures NoEmissionAdded(l, l)
  {
  }

  lemma RequestAddsNone(db: Db, w: World, cp: int, price: Option<Price>, c: Claim)
    ensures NoEmissionAdded(db.ledger, RequestOne(db, w, cp, price, c).ledger)
  {
    hide RoomOf, ApprovedFor, ToUnits, AddRequest, NoEmissionAdded, Post;
    NoneAdded(db.ledger);
    if price.Some? {
      var e, p := Hotkey(c.hk), price.value;
      var r := RoomOf(db, w.market, e, cp, p);
      var l1 := ApproveOne(db, w, cp, p, c).ledger;
      PostAddsNone(db.ledger, Wd(c.key), Row(cp * US, e, -ToUnits(ApprovedFor(r, c), p), -ApprovedFor(r, c), WithdrawRow, (0, 0)));
      var out := Row(cp * US, e, -ToUnits(r.lk, p), -r.lk, ForfeitRow, (0, 0));
      var l2 := Post(l1, Forfeit(c.key), out);
      PostAddsNone(l1, Forfeit(c.key), out);
      PostAddsNone(l2, ForfeitIn(c.key), Row(cp * US, Reserve, ToUnits(r.lk, p), r.lk, ForfeitRow, (0, 0)));
      NoEmissionTrans(db.ledger, l1, l2);
      if c.kind == Exit && r.lk > 0.0 {
        NoEmissionTrans(db.ledger, l2, RequestOne(db, w, cp, price, c).ledger);
      }
    }
  }

  lemma PostAddsNone(l: Ledger, k: LKey, row: Row)
    requires row.kind != EmissionRow
    ensures NoEmissionAdded(l, Post(l, k, row))
  {
  }

  lemma {:induction false} ReserveAddsNone(l: Ledger, cycle: nat, tc: int, claims: map<Entity, real>, es: seq<Entity>, scale: real, p: Price)
    ensures NoEmissionAdded(l, ReserveAll(l, cycle, tc, claims, es, scale, p))
    decreases |es|
  {
    if es != [] {
      hide ReservePart, ToUnits;
      ReserveAddsNone(l, cycle, tc, claims, es[..|es| - 1], scale, p);
    }
  }

  lemma {:induction false} PayoutAddsNone(db: Db, cycle: nat, tc: int, nets: map<Entity, real>, es: seq<Entity>, p: Price)
    ensures NoEmissionAdded(db.ledger, PayoutAll(db, cycle, tc, nets, es, p).ledger)
    decreases |es|
  {
    if es != [] {
      hide PayoutOf, ToUnits, FloorRao;
      PayoutAddsNone(db, cycle, tc, nets, es[..|es| - 1], p);
    }
  }

  lemma SettleAddsNone(db: Db, ch: Chain, cycle: nat, tc: int, owed: map<Entity, real>, nets: map<Entity, real>)
    ensures NoEmissionAdded(db.ledger, Settle(db, ch, cycle, tc, owed, nets).ledger)
  {
    hide ReserveAll, PayoutAll, HotkeysInOrder, ReserveScale, NoEmissionAdded;
    NoneAdded(db.ledger);
    if PriceAt(ch, tc).Some? {
      var p := PriceAt(ch, tc).value;
      var m := ReservePay(db, ch, cycle, tc, owed);
      ReserveAddsNone(db.ledger, cycle, tc, owed, HotkeysInOrder(owed.Keys), ReserveScale(db.ledger, tc, owed, p), p);
      PayoutAddsNone(m, cycle, tc, nets, HotkeysInOrder(nets.Keys), p);
      NoEmissionTrans(db.ledger, m.ledger, Settle(db, ch, cycle, tc, owed, nets).ledger);
    }
  }

  /** At most one sweep is filed to a checkpoint span. */
  ghost predicate OneSweepToASpan(claims: seq<Claim>)
  {
    forall cp :: cp % STEP_S == 0 ==> |Claims(claims, {Sweep}, cp)| <= 1
  }

  /** What the settled cycles paid only grows. */
  ghost predicate PaidGrows(m: Market)
  {
    && (forall c, e :: 0.0 <= PaidAt(m, c, e))
    && (forall c, d, e :: c <= d ==> PaidAt(m, c, e) <= PaidAt(m, d, e))
  }

  ghost predicate WithinPaid(s: Setup, st: State, e: Entity)
  {
    EmissionBefore(st.db.ledger, Next(st.db, s.first) * US)
    && Credited(st.db.ledger, e) <= PaidAt(s.w.market, Next(st.db, s.first), e)
  }

  lemma PhaseBWithinPaid(s: Setup, st: State, e: Entity)
    requires WellSet(s) && Safe(s, st) && Enabled(s, st, DoPhaseB) && e.Hotkey? && WithinPaid(s, st, e)
    requires OneSweepToASpan(s.w.claims) && PaidGrows(s.w.market)
    ensures WithinPaid(s, Do(s, st, DoPhaseB), e)
  {
    hide Whole, KeysFrom, Received, MaxOr, Claims, Sweeps, Requests, Defaults, CheckOf, Credited, PaidAt,
         EmissionBefore, Keyed, KeysOf, Calendar;
    var cp := Next(st.db, s.first);
    var xs, ys := Claims(s.w.claims, {Sweep}, cp), Claims(s.w.claims, {Withdraw, Exit}, cp);
    var blk := s.w.ch.blockAt(cp).value;
    var a, b := Received(s.w.claims, CreditedThrough(s, st)), Received(s.w.claims, cp - STEP_S);
    ClaimsOfSpan(s.w.claims, {Sweep}, cp);
    SpanIsNew(s.w.claims, {Sweep}, cp);
    SpanWithinPaid(st.db, s.w, cp, xs, e, a, b, st.settled);
    OneSweepScale(st.db, s.w, cp, xs);
    SweepsBefore(st.db, s.w, cp, xs, a, b, st.settled);
    var d := Sweeps(st.db, s.w, cp, xs);
    RequestsAddNone(d, s.w, cp, s.w.ch.price(blk), ys);
    var n := Do(s, st, DoPhaseB);
    CreditedKept(d.ledger, n.db.ledger, e);
    BeforeKept(d.ledger, n.db.ledger, (cp + STEP_S) * US);
    PhaseBFrame(st.db, s.w, cp, blk);
    NextAfterCheck(st.db, n.db, s.first);
    assert PaidAt(s.w.market, cp, e) <= PaidAt(s.w.market, cp + STEP_S, e);
  }

  lemma BeforeKept(l: Ledger, n: Ledger, t: int)
    requires NoEmissionAdded(l, n) && EmissionBefore(l, t)
    ensures EmissionBefore(n, t)
  {
  }

  lemma {:induction false} SweepsBefore(db: Db, w: World, cp: int, cs: seq<Claim>, a: set<Key>, b: set<Key>, n: nat)
    requires Whole(db, w.ch, cp * US) && KeysFrom(db, a, b, n) && Keyed(cs) && KeysOf(cs) !! b
    requires EmissionBefore(db.ledger, cp * US)
    ensures EmissionBefore(Sweeps(db, w, cp, cs).ledger, (cp + STEP_S) * US)
    decreases |cs|
  {
    hide Whole, KeysOf, SweepOne, KeysFrom, Total, Inflow, RefUsed;
    if cs != [] {
      var front, c := cs[..|cs| - 1], cs[|cs| - 1];
      FrontKeys(cs);
      SweepsBefore(db, w, cp, front, a, b, n);
      SweepsKeep(db, w, cp, front, cp * US, a, b, n);
      var d := Sweeps(db, w, cp, front);
      SweepFrom(d, w, cp, c, a, b + KeysOf(front), n);
      SweepOneAdds(d.ledger, w, cp, c);
    }
  }

  lemma OtherStepsWithinPaid(s: Setup, st: State, step: Step, e: Entity)
    requires Safe(s, st) && Enabled(s, st, step) && !step.DoPhaseB? && WithinPaid(s, st, e)
    ensures WithinPaid(s, Do(s, st, step), e)
  {
    hide Whole, KeysFrom, DebitsBy, AtCursor, MaxOr, Claims, Deposits, Releases, Settle, Credited, PaidAt,
         EmissionBefore, SettledThrough, CheckpointsDoneBefore, NoEmissionAdded;
    var cp, n := Next(st.db, s.first), Do(s, st, step);
    NoneAdded(st.db.ledger);
    match step
    case DoPhaseA =>
      var cs := Claims(s.w.claims, {Deposit}, cp);
      DepositsAddNone(st.db, s.w.ch, cs);
      PhaseAFrame(st.db, s.w, cp);
      ReleasesFrame(Deposits(st.db, s.w.ch, cs), s.w.ch, Claims(s.w.claims, {Release}, cp));
      CreditedKept(st.db.ledger, n.db.ledger, e);
      BeforeKept(st.db.ledger, n.db.ledger, cp * US);
    case DoSettle =>
      var c := st.settled;
      SettleAddsNone(st.db, s.w.ch, c, CloseOf(s, c), s.owed(c), s.nets(c));
      SettleFrame(st.db, s.w.ch, c, CloseOf(s, c), s.owed(c), s.nets(c));
      CreditedKept(st.db.ledger, n.db.ledger, e);
      BeforeKept(st.db.ledger, n.db.ledger, cp * US);
    case Decide(b) =>
  }

  /** With at most one sweep to a span, on every run nobody is credited more emission than the cycles paid. */
  lemma {:induction false} CreditNeverExceedsPaid(s: Setup, steps: seq<Step>, st: State, e: Entity)
    requires WellSet(s) && Leads(s, steps, st) && e.Hotkey?
    requires OneSweepToASpan(s.w.claims) && PaidGrows(s.w.market)
    ensures WithinPaid(s, st, e)
    decreases |steps|
  {
    hide WellSet, Enabled, Do, Safe, WithinPaid, OneSweepToASpan, PaidGrows;
    if steps == [] {
      StartWithinPaid(s, e);
    } else {
      var front, last := steps[..|steps| - 1], steps[|steps| - 1];
      var before :| Leads(s, front, before) && Enabled(s, before, last) && Do(s, before, last) == st;
      CreditNeverExceedsPaid(s, front, before, e);
      ReachableIsSafe(s, front, before);
      if last == DoPhaseB {
        PhaseBWithinPaid(s, before, e);
      } else {
        OtherStepsWithinPaid(s, before, last, e);
      }
    }
  }

  lemma StartWithinPaid(s: Setup, e: Entity)
    requires PaidGrows(s.w.market)
    ensures WithinPaid(s, Start(s), e)
  {
    assert Credited(EmptyDb.ledger, e) == 0.0;
  }
}
