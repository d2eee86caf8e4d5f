/**
 When settling a cycle and phase A of the next checkpoint may be exchanged (markets_vault.py:211-330, 364-400): neither
 undoes the other, but a payout looks at the balance the span's deposits raise, and a release looks for the request
 the payout opens.
 */
module VaultCommute {
  import opened Wrappers
  import opened Sums
  import opened Vault
  import opened VaultLaws
  import opened VaultBalances
  import opened VaultSafety

  // ---------------------------------------------------------------- rows under new keys

  lemma UnitsOver(l: Ledger, more: Ledger, e: Entity, t: int)
    requires l.Keys !! more.Keys
    ensures UnitsAt(l + more, e, t) == UnitsAt(l, e, t) + UnitsAt(more, e, t)
  {
    var all := l + more;
    SumSplit(all.Keys, l.Keys, UnitsTerm(all, e, t));
    assert all.Keys - l.Keys == more.Keys;
    SumCongruent(l.Keys, UnitsTerm(l, e, t), UnitsTerm(all, e, t));
    SumCongruent(more.Keys, UnitsTerm(more, e, t), UnitsTerm(all, e, t));
  }

  lemma NoUnits(l: Ledger, e: Entity, t: int)
    requires forall k :: k in l ==> l[k].entity != e
    ensures UnitsAt(l, e, t) == 0.0
  {
    SumZero(l.Keys, UnitsTerm(l, e, t));
  }

  lemma SomeUnits(l: Ledger, e: Entity, t: int)
    requires forall k :: k in l ==> l[k].units >= 0.0
    ensures UnitsAt(l, e, t) >= 0.0
  {
    SumNonNegative(l.Keys, UnitsTerm(l, e, t));
  }

  lemma Exchange<K, V>(a: map<K, V>, b: map<K, V>, c: map<K, V>)
    requires b.Keys !! c.Keys
    ensures a + b + c == a + c + b
  {
  }

  /** The rows of `b` that `a` does not have. */
  function NewRows(a: Ledger, b: Ledger): Ledger
  {
    map k | k in b && k !in a :: b[k]
  }

  // ---------------------------------------------------------------- the deposits of a span

  ghost predicate OnlyDeposits(l: Ledger)
  {
    forall k :: k in l ==> k.Dep? && l[k].kind == DepositRow && l[k].entity.Hotkey? && l[k].units > 0.0
  }

  ghost predicate NoDeposits(l: Ledger)
  {
    forall k :: k in l ==> !k.Dep? && l[k].kind != DepositRow
  }

  lemma DepositAdds(db: Db, ch: Chain, c: Claim)
    ensures var n := DepositOne(db, ch, c).ledger;
            n == db.ledger + NewRows(db.ledger, n) && OnlyDeposits(NewRows(db.ledger, n))
  {
    var credit, p := Min(c.amount, ch.depositAlpha((c.block, c.ext), c.hk)), ch.price(c.block);
    if p.Some? {
      UnitsOfAlpha(credit, p.value);
    }
    hide ToUnits, Timely, RefUsed;
  }

  lemma {:induction false} DepositsAdd(db: Db, ch: Chain, cs: seq<Claim>)
    ensures var n := Deposits(db, ch, cs).ledger;
            n == db.ledger + NewRows(db.ledger, n) && OnlyDeposits(NewRows(db.ledger, n))
    decreases |cs|
  {
    hide DepositOne;
    if cs != [] {
      var front := Deposits(db, ch, cs[..|cs| - 1]);
      DepositsAdd(db, ch, cs[..|cs| - 1]);
      DepositAdds(front, ch, cs[|cs| - 1]);
      var n := Deposits(db, ch, cs).ledger;
      forall k | k in n && k !in db.ledger
        ensures k.Dep? && n[k].kind == DepositRow && n[k].entity.Hotkey? && n[k].units > 0.0
      {
        if k in front.ledger {
          assert NewRows(db.ledger, front.ledger)[k] == n[k];
        } else {
          assert NewRows(front.ledger, n)[k] == n[k];
        }
      }
    }
  }

  /** Rows of settlement change nothing about what a deposit posts. */
  lemma DepositOver(a: Db, b: Db, ch: Chain, c: Claim, more: Ledger)
    requires b.ledger == a.ledger + more && a.ledger.Keys !! more.Keys && NoDeposits(more)
    ensures DepositOne(b, ch, c).ledger == DepositOne(a, ch, c).ledger + more
    ensures DepositOne(a, ch, c).ledger.Keys !! more.Keys
  {
    hide ToUnits, Timely, RefUsed, NoDeposits, Min;
    SameRefs(a.ledger, b.ledger, (c.block, c.ext), more);
    NoDepositKey(more, c.key);
  }

  lemma NoDepositKey(more: Ledger, key: Key)
    requires NoDeposits(more)
    ensures Dep(key) !in more
  {
  }

  lemma SameRefs(a: Ledger, b: Ledger, ref: Extrinsic, more: Ledger)
    requires b == a + more && a.Keys !! more.Keys && NoDeposits(more)
    ensures RefUsed(b, DepositRow, ref) == RefUsed(a, DepositRow, ref)
  {
    if k :| k in a && a[k].kind == DepositRow && a[k].ref == ref {
      assert b[k] == a[k];
    }
  }

  lemma {:induction false} DepositsOver(a: Db, b: Db, ch: Chain, cs: seq<Claim>, more: Ledger)
    requires b.ledger == a.ledger + more && a.ledger.Keys !! more.Keys && NoDeposits(more)
    ensures Deposits(b, ch, cs).ledger == Deposits(a, ch, cs).ledger + more
    ensures Deposits(a, ch, cs).ledger.Keys !! more.Keys
    decreases |cs|
  {
    hide DepositOne, NoDeposits;
    if cs != [] {
      DepositsOver(a, b, ch, cs[..|cs| - 1], more);
      DepositOver(Deposits(a, ch, cs[..|cs| - 1]), Deposits(b, ch, cs[..|cs| - 1]), ch, cs[|cs| - 1], more);
    }
  }

  // ---------------------------------------------------------------- what the reserve pays

  /** Deposits leave the payments of the reserve as they are. */
  lemma {:induction false} ReserveOver(l: Ledger, more: Ledger, cycle: nat, tc: int, owed: map<Entity, real>, es: seq<Entity>,
                                       scale: real, p: Price)
    requires l.Keys !! more.Keys && OnlyDeposits(more)
    ensures ReserveAll(l + more, cycle, tc, owed, es, scale, p) == ReserveAll(l, cycle, tc, owed, es, scale, p) + more
    ensures ReserveAll(l, cycle, tc, owed, es, scale, p).Keys !! more.Keys
    decreases |es|
  {
    hide ReserveOne, OnlyDeposits;
    if es != [] {
      var front, e := es[..|es| - 1], es[|es| - 1];
      ReserveOver(l, more, cycle, tc, owed, front, scale, p);
      ReserveOneOver(ReserveAll(l, cycle, tc, owed, front, scale, p), more, cycle, tc, e, ReservePart(owed, e, scale), p);
    }
  }

  lemma ReserveOneOver(l: Ledger, more: Ledger, cycle: nat, tc: int, e: Entity, a: real, p: Price)
    requires l.Keys !! more.Keys && OnlyDeposits(more)
    ensures ReserveOne(l + more, cycle, tc, e, a, p) == ReserveOne(l, cycle, tc, e, a, p) + more
    ensures ReserveOne(l, cycle, tc, e, a, p).Keys !! more.Keys
  {
    hide ToUnits;
  }

  lemma ReservePayOver(a: Db, b: Db, ch: Chain, cycle: nat, tc: int, owed: map<Entity, real>, more: Ledger)
    requires b.ledger == a.ledger + more && a.ledger.Keys !! more.Keys && OnlyDeposits(more)
    ensures ReservePay(b, ch, cycle, tc, owed).ledger == ReservePay(a, ch, cycle, tc, owed).ledger + more
    ensures ReservePay(a, ch, cycle, tc, owed).ledger.Keys !! more.Keys
    ensures ReservePay(a, ch, cycle, tc, owed).requests == a.requests
    ensures ReservePay(b, ch, cycle, tc, owed) == b.(ledger := ReservePay(a, ch, cycle, tc, owed).ledger + more)
  {
    hide ReserveAll, HotkeysInOrder, UnitsAt, PriceAt, ToAlpha;
    if PriceAt(ch, tc).Some? {
      var p := PriceAt(ch, tc).value;
      UnitsOver(a.ledger, more, Reserve, tc * US - 1);
      NoUnits(more, Reserve, tc * US - 1);
      ReserveOver(a.ledger, more, cycle, tc, owed, HotkeysInOrder(owed.Keys), ReserveScale(a.ledger, tc, owed, p), p);
    }
  }

  // ---------------------------------------------------------------- payouts in one piece

  /** What a payout takes from each entity. */
  ghost function Takes(l: Ledger, tc: int, nets: map<Entity, real>, p: Price): Entity -> real
  {
    (e: Entity) => if FloorRao(Amounts(nets)(e)) <= 0.0 then 0.0 else PayoutOf(l, e, tc, Amounts(nets)(e), p)
  }

  ghost function PayoutKeys(cycle: nat, es: seq<Entity>, takes: Entity -> real): (ks: set<LKey>)
    ensures forall k :: k in ks <==> k.Payout? && k.cycle == cycle && k.entity in es && takes(k.entity) > 0.0
  {
    set e | e in es && takes(e) > 0.0 :: Payout(cycle, e)
  }

  ghost function OpenedKeys(cycle: nat, es: seq<Entity>, nets: map<Entity, real>): (ks: set<ReqKey>)
    ensures forall k :: k in ks <==> k.OfPayout? && k.cycle == cycle && k.entity in es && FloorRao(Amounts(nets)(k.entity)) > 0.0
  {
    set e | e in es && FloorRao(Amounts(nets)(e)) > 0.0 :: OfPayout(cycle, e)
  }

  ghost function PayoutRows(cycle: nat, tc: int, es: seq<Entity>, takes: Entity -> real, p: Price): Ledger
  {
    map k | k in PayoutKeys(cycle, es, takes) :: DebitRow(tc, k.entity, takes(k.entity), p)
  }

  function DebitRow(tc: int, e: Entity, a: real, p: Price): Row
  {
    Row(tc * US, e, -ToUnits(a, p), -a, PayoutRow, (0, 0))
  }

  function PayoutRequest(tc: int, e: Entity, net: real, a: real): Request
  {
    Request(e, FloorRao(net), tc, a, if a > 0.0 then Approved else Uncovered, None, 0.0)
  }

  /** The requests a cycle's payouts open. */
  ghost function Opened(cycle: nat, tc: int, es: seq<Entity>, nets: map<Entity, real>, takes: Entity -> real): map<ReqKey, Request>
  {
    map k | k in OpenedKeys(cycle, es, nets) ::
      PayoutRequest(tc, k.entity, Amounts(nets)(k.entity), takes(k.entity))
  }

  ghost function PaidOut(db: Db, cycle: nat, tc: int, nets: map<Entity, real>, es: seq<Entity>, takes: Entity -> real, p: Price): Db
  {
    db.(ledger := db.ledger + PayoutRows(cycle, tc, es, takes, p), requests := db.requests + Opened(cycle, tc, es, nets, takes))
  }

  /** Each payout looks at its own entity only, so all of them can be read off the ledger before the first. */
  lemma {:induction false} PayoutsTogether(db: Db, cycle: nat, tc: int, nets: map<Entity, real>, es: seq<Entity>, p: Price)
    requires NoPayoutRows(db, cycle, es) && forall i, j :: 0 <= i < j < |es| ==> es[i] != es[j]
    ensures PayoutAll(db, cycle, tc, nets, es, p) == PaidOut(db, cycle, tc, nets, es, Takes(db.ledger, tc, nets, p), p)
    decreases |es|
  {
    hide PayoutOne, PaidOut, Takes, Amounts;
    if es == [] {
      PaidNothing(db, cycle, tc, nets, Takes(db.ledger, tc, nets, p), p);
    } else {
      var front, e := es[..|es| - 1], es[|es| - 1];
      LastIsNew(es);
      PayoutsTogether(db, cycle, tc, nets, front, p);
      PaidOneMore(db, cycle, tc, nets, front, e, p);
      assert front + [e] == es;
    }
  }

  lemma PaidNothing(db: Db, cycle: nat, tc: int, nets: map<Entity, real>, takes: Entity -> real, p: Price)
    ensures PaidOut(db, cycle, tc, nets, [], takes, p) == db
  {
  }

  lemma PaidOneMore(db: Db, cycle: nat, tc: int, nets: map<Entity, real>, front: seq<Entity>, e: Entity, p: Price)
    requires NoPayoutRows(db, cycle, front + [e]) && e !in front
    ensures var takes := Takes(db.ledger, tc, nets, p);
            PayoutOne(PaidOut(db, cycle, tc, nets, front, takes, p), cycle, tc, e, Amounts(nets)(e), p)
            == PaidOut(db, cycle, tc, nets, front + [e], takes, p)
  {
    hide DebitRow, PayoutRequest, FloorRao, PayoutOf, Amounts, PayoutRows, Opened, NoPayoutRows, PayoutOne, Takes;
    var takes := Takes(db.ledger, tc, nets, p);
    TakesOf(db.ledger, tc, nets, p, e);
    PayoutLooksBefore(db, cycle, tc, nets, front, e, p);
    NotOpenedYet(db, cycle, tc, nets, front, e, p);
    RowsOneMore(cycle, tc, front, e, takes, p);
    OpenedOneMore(cycle, tc, nets, front, e, takes);
    PayoutPosts(PaidOut(db, cycle, tc, nets, front, takes, p), cycle, tc, e, Amounts(nets)(e), p, takes(e));
    Overlay(db.ledger, PayoutRows(cycle, tc, front, takes, p), Payout(cycle, e), DebitRow(tc, e, takes(e), p));
    Overlay(db.requests, Opened(cycle, tc, front, nets, takes), OfPayout(cycle, e), PayoutRequest(tc, e, Amounts(nets)(e), takes(e)));
  }

  lemma TakesOf(l: Ledger, tc: int, nets: map<Entity, real>, p: Price, e: Entity)
    ensures Takes(l, tc, nets, p)(e) == if FloorRao(Amounts(nets)(e)) <= 0.0 then 0.0 else PayoutOf(l, e, tc, Amounts(nets)(e), p)
  {
    hide FloorRao, PayoutOf, Amounts;
  }

  lemma Overlay<K, V>(a: map<K, V>, b: map<K, V>, k: K, v: V)
    ensures (a + b)[k := v] == a + b[k := v]
  {
  }

  lemma PayoutPosts(d: Db, cycle: nat, tc: int, e: Entity, net: real, p: Price, a: real)
    requires Payout(cycle, e) !in d.ledger && OfPayout(cycle, e) !in d.requests
    requires a == if FloorRao(net) <= 0.0 then 0.0 else PayoutOf(d.ledger, e, tc, net, p)
    ensures PayoutOne(d, cycle, tc, e, net, p)
            == d.(ledger := if a > 0.0 then d.ledger[Payout(cycle, e) := DebitRow(tc, e, a, p)] else d.ledger,
                  requests := if FloorRao(net) > 0.0 then d.requests[OfPayout(cycle, e) := PayoutRequest(tc, e, net, a)] else d.requests)
  {
    hide ToUnits, FloorRao, PayoutOf;
  }

  /** The entity's balance does not feel the payouts to others. */
  lemma PayoutLooksBefore(db: Db, cycle: nat, tc: int, nets: map<Entity, real>, front: seq<Entity>, e: Entity, p: Price)
    requires NoPayoutRows(db, cycle, front + [e]) && e !in front
    ensures var paid := db.ledger + PayoutRows(cycle, tc, front, Takes(db.ledger, tc, nets, p), p);
            PayoutOf(paid, e, tc, Amounts(nets)(e), p) == PayoutOf(db.ledger, e, tc, Amounts(nets)(e), p)
  {
    hide ToUnits, FloorRao, UnitsAt, ToAlpha, Amounts, Takes;
    var rows := PayoutRows(cycle, tc, front, Takes(db.ledger, tc, nets, p), p);
    forall k | k in rows ensures k !in db.ledger {
      assert k == Payout(cycle, k.entity) && k.entity in front + [e];
    }
    UnitsOver(db.ledger, rows, e, tc * US);
    NoUnits(rows, e, tc * US);
  }

  lemma NotOpenedYet(db: Db, cycle: nat, tc: int, nets: map<Entity, real>, front: seq<Entity>, e: Entity, p: Price)
    requires NoPayoutRows(db, cycle, front + [e]) && e !in front
    ensures var takes := Takes(db.ledger, tc, nets, p);
            && Payout(cycle, e) !in db.ledger && Payout(cycle, e) !in PayoutRows(cycle, tc, front, takes, p)
            && OfPayout(cycle, e) !in db.requests && OfPayout(cycle, e) !in Opened(cycle, tc, front, nets, takes)
  {
    hide ToUnits, FloorRao, Amounts, Takes;
    assert e in front + [e];
  }

  lemma RowsOneMore(cycle: nat, tc: int, front: seq<Entity>, e: Entity, takes: Entity -> real, p: Price)
    ensures PayoutRows(cycle, tc, front + [e], takes, p)
            == if takes(e) > 0.0 then PayoutRows(cycle, tc, front, takes, p)[Payout(cycle, e) := DebitRow(tc, e, takes(e), p)]
               else PayoutRows(cycle, tc, front, takes, p)
  {
    hide DebitRow;
    assert forall x :: x in front + [e] <==> x in front || x == e;
  }

  lemma OpenedOneMore(cycle: nat, tc: int, nets: map<Entity, real>, front: seq<Entity>, e: Entity, takes: Entity -> real)
    ensures Opened(cycle, tc, front + [e], nets, takes)
            == if FloorRao(Amounts(nets)(e)) > 0.0
               then Opened(cycle, tc, front, nets, takes)[OfPayout(cycle, e) := PayoutRequest(tc, e, Amounts(nets)(e), takes(e))]
               else Opened(cycle, tc, front, nets, takes)
  {
    hide PayoutRequest, FloorRao, Amounts;
    assert forall x :: x in front + [e] <==> x in front || x == e;
  }

  // ---------------------------------------------------------------- releases and new requests

  /** The claim's transfer can release a request of its own that is open since `r.cp`. */
  predicate Fits(ch: Chain, c: Claim, r: Request)
  {
    && r.status in {Approved, Default}
    && r.cp <= ch.blockTime(c.block) <= c.tRecv / US
    && ch.releaseAlpha((c.block, c.ext), r.entity) > 0.0
  }

  /** The claim releases one of the requests `more`, if they are there when it is applied. */
  predicate Frees(requests: map<ReqKey, Request>, ch: Chain, c: Claim, more: map<ReqKey, Request>)
  {
    c.ref in more && Fits(ch, c, more[c.ref]) && !ReleasedWith(requests, (c.block, c.ext))
  }

  /** No claim of `cs`, applied in order, would release one of the requests `more`. */
  ghost predicate NoneFrees(db: Db, ch: Chain, cs: seq<Claim>, more: map<ReqKey, Request>)
  {
    forall i :: 0 <= i < |cs| ==> !Frees(Releases(db, ch, cs[..i]).requests, ch, cs[i], more)
  }

  ghost predicate Unreleased(more: map<ReqKey, Request>)
  {
    forall k :: k in more ==> more[k].status != Released && more[k].releasedBy.None?
  }

  lemma ReleaseOver(a: Db, b: Db, ch: Chain, c: Claim, more: map<ReqKey, Request>)
    requires b.requests == a.requests + more && a.requests.Keys !! more.Keys && Unreleased(more)
    ensures ReleaseOne(a, ch, c).requests.Keys == a.requests.Keys
    ensures !Frees(a.requests, ch, c, more) ==> ReleaseOne(b, ch, c).requests == ReleaseOne(a, ch, c).requests + more
    ensures Frees(a.requests, ch, c, more) ==> ReleaseOne(b, ch, c).requests[c.ref].status == Released
  {
    hide ReleasedWith;
    SameReleases(a.requests, b.requests, (c.block, c.ext), more);
  }

  lemma SameReleases(a: map<ReqKey, Request>, b: map<ReqKey, Request>, x: Extrinsic, more: map<ReqKey, Request>)
    requires b == a + more && a.Keys !! more.Keys && Unreleased(more)
    ensures ReleasedWith(b, x) == ReleasedWith(a, x)
  {
    if k :| k in a && a[k].releasedBy == Some(x) {
      assert b[k] == a[k];
    }
  }

  /** A release changes a request only to released. */
  lemma ReleaseTouches(db: Db, ch: Chain, c: Claim, k: ReqKey)
    requires k in db.requests
    ensures var n := ReleaseOne(db, ch, c).requests;
            k in n && n[k].approved == db.requests[k].approved && (n[k] == db.requests[k] || n[k].status == Released)
  {
    hide ReleasedWith;
  }

  lemma {:induction false} ReleasesKeepApproved(db: Db, ch: Chain, cs: seq<Claim>, k: ReqKey)
    requires k in db.requests
    ensures k in Releases(db, ch, cs).requests && Releases(db, ch, cs).requests[k].approved == db.requests[k].approved
    decreases |cs|
  {
    hide ReleaseOne;
    if cs != [] {
      ReleasesKeepApproved(db, ch, cs[..|cs| - 1], k);
      ReleaseTouches(Releases(db, ch, cs[..|cs| - 1]), ch, cs[|cs| - 1], k);
    }
  }

  lemma NoneFreesFront(db: Db, ch: Chain, cs: seq<Claim>, more: map<ReqKey, Request>)
    requires cs != []
    ensures var front := cs[..|cs| - 1];
            NoneFrees(db, ch, cs, more) <==> NoneFrees(db, ch, front, more) && !Frees(Releases(db, ch, front).requests, ch, cs[|cs| - 1], more)
  {
    hide Frees, Releases;
    var front := cs[..|cs| - 1];
    assert forall i :: 0 <= i < |front| ==> front[i] == cs[i] && front[..i] == cs[..i];
  }

  /** The releases of a span and newly opened requests do not meet exactly when no release frees one of them. */
  lemma {:induction false} ReleasesOver(a: Db, b: Db, ch: Chain, cs: seq<Claim>, more: map<ReqKey, Request>)
    requires b.requests == a.requests + more && a.requests.Keys !! more.Keys && Unreleased(more)
    ensures Releases(a, ch, cs).requests.Keys == a.requests.Keys
    ensures NoneFrees(a, ch, cs, more) <==> Releases(b, ch, cs).requests == Releases(a, ch, cs).requests + more
    ensures !NoneFrees(a, ch, cs, more) ==>
              exists k :: k in more && k in Releases(b, ch, cs).requests && Releases(b, ch, cs).requests[k].status == Released
    decreases |cs|
  {
    hide ReleaseOne, NoneFrees, Frees;
    if cs == [] {
      NothingFrees(a, ch, more);
    } else {
      var front, c := cs[..|cs| - 1], cs[|cs| - 1];
      var a1, b1 := Releases(a, ch, front), Releases(b, ch, front);
      NoneFreesFront(a, ch, cs, more);
      ReleasesOver(a, b, ch, front, more);
      if NoneFrees(a, ch, front, more) {
        ReleaseOver(a1, b1, ch, c, more);
        if Frees(a1.requests, ch, c, more) {
          FreedIsNew(a1, b1, ch, c, more);
        }
      } else {
        ReleaseKeys(a1, ch, c);
        var k :| k in more && k in b1.requests && b1.requests[k].status == Released;
        ReleaseTouches(b1, ch, c, k);
      }
    }
  }

  lemma NothingFrees(a: Db, ch: Chain, more: map<ReqKey, Request>)
    ensures NoneFrees(a, ch, [], more)
  {
  }

  lemma ReleaseKeys(db: Db, ch: Chain, c: Claim)
    ensures ReleaseOne(db, ch, c).requests.Keys == db.requests.Keys
  {
    hide ReleasedWith;
  }

  lemma FreedIsNew(a: Db, b: Db, ch: Chain, c: Claim, more: map<ReqKey, Request>)
    requires b.requests == a.requests + more && Frees(a.requests, ch, c, more)
    ensures c.ref in more && c.ref in ReleaseOne(b, ch, c).requests
  {
    hide ReleasedWith;
  }

  /** Releases read requests only. */
  lemma {:induction false} ReleasesReadRequests(a: Db, b: Db, ch: Chain, cs: seq<Claim>)
    requires a.requests == b.requests
    ensures Releases(a, ch, cs).requests == Releases(b, ch, cs).requests
    decreases |cs|
  {
    hide ReleasedWith;
    if cs != [] {
      ReleasesReadRequests(a, b, ch, cs[..|cs| - 1]);
    }
  }

  // ---------------------------------------------------------------- the two orders

  /** The rows phase A of the checkpoint posts for deposits. */
  ghost function SpanDeposits(d: Db, w: World, cp: int): Ledger
  {
    NewRows(d.ledger, Deposits(d, w.ch, Claims(w.claims, {Deposit}, cp)).ledger)
  }

  /** A settlement's cycle, its close, and what it asks of the vault. */
  datatype Closing = Closing(cycle: nat, tc: int, owed: map<Entity, real>, nets: map<Entity, real>)

  ghost function SettleIt(d: Db, ch: Chain, x: Closing): Db
  {
    Settle(d, ch, x.cycle, x.tc, x.owed, x.nets)
  }

  /** The ledger once the reserve has paid. */
  ghost function Reserved(d: Db, ch: Chain, x: Closing): Ledger
  {
    ReservePay(d, ch, x.cycle, x.tc, x.owed).ledger
  }

  ghost function BalanceAtClose(d: Db, ch: Chain, x: Closing, e: Entity, p: Price): real
  {
    ToAlpha(UnitsAt(Reserved(d, ch, x), e, x.tc * US), p)
  }

  /** The requests the settlement opens. */
  ghost function Opens(d: Db, ch: Chain, x: Closing, p: Price): map<ReqKey, Request>
  {
    Opened(x.cycle, x.tc, HotkeysInOrder(x.nets.Keys), x.nets, Takes(Reserved(d, ch, x), x.tc, x.nets, p))
  }

  /** The balance covers the net, or what comes late does not make up another rao. */
  predicate Unmoved(net: real, bal: real, late: real)
  {
    FloorRao(net) <= FloorRao(bal) || FloorRao(bal + late) == FloorRao(bal)
  }

  /** No deposit of the span received by the close changes what a payout of the cycle takes. */
  ghost predicate DepositsMoveNoPayout(d: Db, w: World, cp: int, x: Closing, p: Price)
  {
    forall e :: e in x.nets && e.Hotkey? && FloorRao(x.nets[e]) > 0.0 ==>
      Unmoved(x.nets[e], BalanceAtClose(d, w.ch, x, e, p), ToAlpha(UnitsAt(SpanDeposits(d, w, cp), e, x.tc * US), p))
  }

  /** No release claim of the span would release a payout of the cycle. */
  ghost predicate ReleasesMeetNoPayout(d: Db, w: World, cp: int, x: Closing, p: Price)
  {
    NoneFrees(d, w.ch, Claims(w.claims, {Release}, cp), Opens(d, w.ch, x, p))
  }

  /** The cycle has posted nothing yet, and earlier debits lie before its close. */
  ghost predicate Unsettled(d: Db, ch: Chain, x: Closing)
  {
    && NoCycleRows(d, x.cycle, HotkeysInOrder(x.owed.Keys))
    && NoPayoutRows(d, x.cycle, HotkeysInOrder(x.nets.Keys))
    && Whole(d, ch, x.tc * US - 1)
  }

  /** Settlement in one piece. */
  lemma SettlesAs(d: Db, ch: Chain, x: Closing)
    requires NoPayoutRows(d, x.cycle, HotkeysInOrder(x.nets.Keys))
    ensures PriceAt(ch, x.tc).None? ==> SettleIt(d, ch, x) == d
    ensures PriceAt(ch, x.tc).Some? ==>
              var p, es := PriceAt(ch, x.tc).value, HotkeysInOrder(x.nets.Keys);
              SettleIt(d, ch, x)
              == PaidOut(d.(ledger := Reserved(d, ch, x)), x.cycle, x.tc, x.nets, es, Takes(Reserved(d, ch, x), x.tc, x.nets, p), p)
  {
    hide ReserveAll, ReserveScale, HotkeysInOrder, PriceAt, PaidOut, Takes, PayoutAll, NoPayoutRows;
    if PriceAt(ch, x.tc).Some? {
      var p := PriceAt(ch, x.tc).value;
      OnlyLedger(d, ch, x);
      ReserveOpensNothing(d, ch, x);
      HotkeysDistinct(x.nets.Keys);
      PayoutsTogether(ReservePay(d, ch, x.cycle, x.tc, x.owed), x.cycle, x.tc, x.nets, HotkeysInOrder(x.nets.Keys), p);
    }
  }

  lemma OnlyLedger(d: Db, ch: Chain, x: Closing)
    ensures ReservePay(d, ch, x.cycle, x.tc, x.owed) == d.(ledger := Reserved(d, ch, x))
  {
    hide ReserveAll, ReserveScale, HotkeysInOrder, PriceAt;
  }

  lemma ReserveOpensNothing(d: Db, ch: Chain, x: Closing)
    requires NoPayoutRows(d, x.cycle, HotkeysInOrder(x.nets.Keys))
    ensures NoPayoutRows(ReservePay(d, ch, x.cycle, x.tc, x.owed), x.cycle, HotkeysInOrder(x.nets.Keys))
  {
    hide ReserveAll, ReserveScale, HotkeysInOrder, PriceAt;
    if PriceAt(ch, x.tc).Some? {
      var p := PriceAt(ch, x.tc).value;
      ReserveAllKeys(d.ledger, x.cycle, x.tc, x.owed, HotkeysInOrder(x.owed.Keys), ReserveScale(d.ledger, x.tc, x.owed, p), p);
    }
  }

  /** Phase A in two parts: rows for the span's deposits, then its releases. */
  lemma PhaseAAdds(d: Db, w: World, cp: int)
    ensures var n := PhaseA(d, w, cp);
            && n == d.(ledger := d.ledger + SpanDeposits(d, w, cp), requests := Releases(d, w.ch, Claims(w.claims, {Release}, cp)).requests)
            && OnlyDeposits(SpanDeposits(d, w, cp)) && d.ledger.Keys !! SpanDeposits(d, w, cp).Keys
  {
    hide Claims, Deposits, Releases, OnlyDeposits;
    var cs, rs := Claims(w.claims, {Deposit}, cp), Claims(w.claims, {Release}, cp);
    var d1 := Deposits(d, w.ch, cs);
    DepositsAdd(d, w.ch, cs);
    DepositsFrame(d, w.ch, cs);
    ReleasesFrame(d1, w.ch, rs);
    ReleasesReadRequests(d1, d, w.ch, rs);
  }

  /** A payout is the same before and after a deposit is credited exactly when the balance covers the net already, or
      the deposit does not reach the next rao. */
  lemma LateDepositMovesPayout(net: real, bal: real, late: real)
    requires bal >= 0.0 && late >= 0.0
    ensures FloorRao(Min(FloorRao(net), Max(bal, 0.0))) == FloorRao(Min(FloorRao(net), Max(bal + late, 0.0))) <==> Unmoved(net, bal, late)
  {
    FloorOfMin(net, bal);
    FloorOfMin(net, bal + late);
    FloorRaoMonotone(bal, bal + late);
    hide FloorRao;
  }

  lemma FloorRaoMonotone(x: real, y: real)
    requires x <= y
    ensures FloorRao(x) <= FloorRao(y)
  {
    assert x * 1000000000.0 <= y * 1000000000.0;
    assert (x * 1000000000.0).Floor <= (y * 1000000000.0).Floor;
  }

  lemma FloorRaoOfFloor(x: real)
    ensures FloorRao(FloorRao(x)) == FloorRao(x)
  {
    assert FloorRao(x) * 1000000000.0 == (x * 1000000000.0).Floor as real;
  }

  /** A whole number of rao is paid exactly when the balance, rounded down, reaches it. */
  lemma FloorOfMin(net: real, bal: real)
    requires bal >= 0.0
    ensures FloorRao(Min(FloorRao(net), Max(bal, 0.0))) == Min(FloorRao(net), FloorRao(bal))
  {
    FloorRaoOfFloor(net);
    hide FloorRao;
    if FloorRao(net) <= bal {
      FloorRaoMonotone(FloorRao(net), bal);
    } else {
      FloorRaoMonotone(bal, FloorRao(net));
    }
  }

  lemma LateApart(d: Db, w: World, cp: int, x: Closing)
    ensures var late, l := SpanDeposits(d, w, cp), Reserved(d, w.ch, x);
            l.Keys !! late.Keys && OnlyDeposits(late)
    ensures ReservePay(PhaseA(d, w, cp), w.ch, x.cycle, x.tc, x.owed)
            == PhaseA(d, w, cp).(ledger := Reserved(d, w.ch, x) + SpanDeposits(d, w, cp))
  {
    hide SpanDeposits, ReservePay, PhaseA, OnlyDeposits;
    PhaseAAdds(d, w, cp);
    ReservePayOver(d, PhaseA(d, w, cp), w.ch, x.cycle, x.tc, x.owed, SpanDeposits(d, w, cp));
  }

  /** What a payout takes with the span's deposits credited, and without. */
  lemma TakesOne(d: Db, w: World, cp: int, x: Closing, p: Price, e: Entity)
    requires Unsettled(d, w.ch, x) && e in x.nets
    ensures var late, l := SpanDeposits(d, w, cp), Reserved(d, w.ch, x);
            Takes(l, x.tc, x.nets, p)(e) == Takes(l + late, x.tc, x.nets, p)(e)
            <==> (FloorRao(x.nets[e]) > 0.0 ==>
                    Unmoved(x.nets[e], BalanceAtClose(d, w.ch, x, e, p), ToAlpha(UnitsAt(late, e, x.tc * US), p)))
  {
    hide Whole, NoCycleRows, NoPayoutRows, SpanDeposits, ReservePay, UnitsAt, ToAlpha, FloorRao, HotkeysInOrder,
         OnlyDeposits, Unmoved, PayoutOf;
    var late, l := SpanDeposits(d, w, cp), Reserved(d, w.ch, x);
    LateApart(d, w, cp, x);
    ReservePayKeepsWhole(d, w.ch, x.cycle, x.tc, x.owed);
    WholeHolds(ReservePay(d, w.ch, x.cycle, x.tc, x.owed), w.ch, x.tc * US, e, x.tc * US, p);
    assert Amounts(x.nets)(e) == x.nets[e];
    TakesIs(l, x, p, e);
    TakesIs(l + late, x, p, e);
    hide Takes;
    PayoutWithLate(l, late, e, x.tc, x.nets[e], p);
  }

  lemma TakesIs(l: Ledger, x: Closing, p: Price, e: Entity)
    requires e in x.nets
    ensures Takes(l, x.tc, x.nets, p)(e) == if FloorRao(x.nets[e]) <= 0.0 then 0.0 else PayoutOf(l, e, x.tc, x.nets[e], p)
  {
    var f := Takes(l, x.tc, x.nets, p);
    assert Amounts(x.nets)(e) == x.nets[e];
    assert f(e) == if FloorRao(Amounts(x.nets)(e)) <= 0.0 then 0.0 else PayoutOf(l, e, x.tc, Amounts(x.nets)(e), p);
  }

  lemma TakesIff(d: Db, w: World, cp: int, x: Closing, p: Price)
    requires Unsettled(d, w.ch, x)
    ensures var late, l := SpanDeposits(d, w, cp), Reserved(d, w.ch, x);
            (forall e :: e in HotkeysInOrder(x.nets.Keys) ==> Takes(l, x.tc, x.nets, p)(e) == Takes(l + late, x.tc, x.nets, p)(e))
            <==> DepositsMoveNoPayout(d, w, cp, x, p)
  {
    hide Unsettled, SpanDeposits, Reserved, UnitsAt, ToAlpha, FloorRao, HotkeysInOrder, Unmoved, Takes, BalanceAtClose;
    HotkeysDistinct(x.nets.Keys);
    forall e | e in x.nets {
      TakesOne(d, w, cp, x, p, e);
    }
  }

  lemma PayoutWithLate(l: Ledger, late: Ledger, e: Entity, tc: int, net: real, p: Price)
    requires l.Keys !! late.Keys && OnlyDeposits(late) && ToAlpha(UnitsAt(l, e, tc * US), p) >= 0.0
    ensures PayoutOf(l, e, tc, net, p) == PayoutOf(l + late, e, tc, net, p)
            <==> Unmoved(net, ToAlpha(UnitsAt(l, e, tc * US), p), ToAlpha(UnitsAt(late, e, tc * US), p))
  {
    hide UnitsAt, ToAlpha, FloorRao, Unmoved;
    UnitsOver(l, late, e, tc * US);
    SomeUnits(late, e, tc * US);
    AlphaMonotone(0.0, UnitsAt(late, e, tc * US), p);
    AlphaAdd(UnitsAt(l, e, tc * US), UnitsAt(late, e, tc * US), p);
    LateDepositMovesPayout(net, ToAlpha(UnitsAt(l, e, tc * US), p), ToAlpha(UnitsAt(late, e, tc * US), p));
  }

  /** Payouts of the same amounts, in the ledger and the requests of either order. */
  lemma SameTakesSameRows(cycle: nat, tc: int, es: seq<Entity>, nets: map<Entity, real>, f: Entity -> real, g: Entity -> real, p: Price)
    requires forall e :: e in es ==> f(e) == g(e)
    ensures PayoutRows(cycle, tc, es, f, p) == PayoutRows(cycle, tc, es, g, p)
    ensures Opened(cycle, tc, es, nets, f) == Opened(cycle, tc, es, nets, g)
  {
    hide ToUnits, FloorRao;
    assert PayoutKeys(cycle, es, f) == PayoutKeys(cycle, es, g);
  }

  lemma TakesAreRecorded(cycle: nat, tc: int, es: seq<Entity>, nets: map<Entity, real>, f: Entity -> real, e: Entity)
    requires e in es && FloorRao(Amounts(nets)(e)) > 0.0
    ensures OfPayout(cycle, e) in Opened(cycle, tc, es, nets, f) && Opened(cycle, tc, es, nets, f)[OfPayout(cycle, e)].approved == f(e)
  {
    hide FloorRao, Amounts;
  }

  lemma OpenedIsNew(d: Db, ch: Chain, x: Closing, p: Price)
    requires NoPayoutRows(d, x.cycle, HotkeysInOrder(x.nets.Keys))
    ensures d.requests.Keys !! Opens(d, ch, x, p).Keys && Unreleased(Opens(d, ch, x, p))
  {
    hide FloorRao, Takes, Amounts, HotkeysInOrder;
  }

  /** Settlement after phase A. */
  lemma SettleSecond(d: Db, w: World, cp: int, x: Closing, p: Price)
    requires Unsettled(d, w.ch, x) && PriceAt(w.ch, x.tc) == Some(p)
    ensures var late, l, es := SpanDeposits(d, w, cp), Reserved(d, w.ch, x), HotkeysInOrder(x.nets.Keys);
            var n := PhaseA(d, w, cp);
            var takes := Takes(l + late, x.tc, x.nets, p);
            SettleIt(n, w.ch, x) == PaidOut(n.(ledger := l + late), x.cycle, x.tc, x.nets, es, takes, p)
  {
    hide Whole, NoCycleRows, NoPayoutRows, SpanDeposits, ReservePay, Takes, HotkeysInOrder, PriceAt, PhaseA, PaidOut;
    LateApart(d, w, cp, x);
    NoPayoutsAfter(d, w, cp, x);
    SettlesAs(PhaseA(d, w, cp), w.ch, x);
  }

  lemma NoPayoutsAfter(d: Db, w: World, cp: int, x: Closing)
    requires NoPayoutRows(d, x.cycle, HotkeysInOrder(x.nets.Keys))
    ensures NoPayoutRows(PhaseA(d, w, cp), x.cycle, HotkeysInOrder(x.nets.Keys))
  {
    hide PhaseA, SpanDeposits, HotkeysInOrder, Claims;
    PhaseAAdds(d, w, cp);
    ReleasesOver(d, d, w.ch, Claims(w.claims, {Release}, cp), map[]);
  }

  /** Phase A after settlement: the same deposits on the settled ledger, the same releases on the settled requests. */
  lemma PhaseASecond(d: Db, w: World, cp: int, x: Closing, p: Price)
    requires Unsettled(d, w.ch, x) && PriceAt(w.ch, x.tc) == Some(p)
    ensures var n := PhaseA(SettleIt(d, w.ch, x), w, cp);
            && n.ledger == SettleIt(d, w.ch, x).ledger + SpanDeposits(d, w, cp)
            && n.exits == d.exits && n.checks == d.checks && n.credit == d.credit
  {
    hide Whole, NoCycleRows, Claims, Deposits, Releases, Settle, OnlyDeposits;
    var m := SettleIt(d, w.ch, x);
    var cs := Claims(w.claims, {Deposit}, cp);
    SettleFrame(d, w.ch, x.cycle, x.tc, x.owed, x.nets);
    PhaseAFrame(m, w, cp);
    PhaseAAdds(m, w, cp);
    SettlementExtends(d, w.ch, x);
    DepositsOver(d, m, w.ch, cs, NewRows(d.ledger, m.ledger));
    DepositsAdd(d, w.ch, cs);
    var more, late := NewRows(d.ledger, m.ledger), SpanDeposits(d, w, cp);
    Exchange(d.ledger, late, more);
    DepositsFrame(m, w.ch, cs);
    ReleasesFrame(Deposits(m, w.ch, cs), w.ch, Claims(w.claims, {Release}, cp));
  }

  ghost predicate AddsNoDeposit(a: Ledger, b: Ledger)
  {
    && (forall k :: k in a ==> k in b && b[k] == a[k])
    && (forall k :: k in b && k !in a ==> !k.Dep? && b[k].kind != DepositRow)
  }

  lemma {:induction false} ReserveAddsNoDeposit(l: Ledger, cycle: nat, tc: int, owed: map<Entity, real>, es: seq<Entity>, scale: real, p: Price)
    ensures AddsNoDeposit(l, ReserveAll(l, cycle, tc, owed, es, scale, p))
    decreases |es|
  {
    hide ReservePart, ToUnits;
    if es != [] {
      ReserveAddsNoDeposit(l, cycle, tc, owed, es[..|es| - 1], scale, p);
    }
  }

  lemma {:induction false} PayoutsAddNoDeposit(d: Db, cycle: nat, tc: int, nets: map<Entity, real>, es: seq<Entity>, p: Price)
    ensures AddsNoDeposit(d.ledger, PayoutAll(d, cycle, tc, nets, es, p).ledger)
    decreases |es|
  {
    hide PayoutOf, ToUnits, FloorRao;
    if es != [] {
      PayoutsAddNoDeposit(d, cycle, tc, nets, es[..|es| - 1], p);
    }
  }

  lemma SettlementExtends(d: Db, ch: Chain, x: Closing)
    ensures var n := SettleIt(d, ch, x).ledger;
            n == d.ledger + NewRows(d.ledger, n) && NoDeposits(NewRows(d.ledger, n))
  {
    hide ReserveAll, ReserveScale, PayoutAll, HotkeysInOrder, PriceAt;
    if PriceAt(ch, x.tc).Some? {
      var p := PriceAt(ch, x.tc).value;
      ReserveAddsNoDeposit(d.ledger, x.cycle, x.tc, x.owed, HotkeysInOrder(x.owed.Keys), ReserveScale(d.ledger, x.tc, x.owed, p), p);
      PayoutsAddNoDeposit(ReservePay(d, ch, x.cycle, x.tc, x.owed), x.cycle, x.tc, x.nets, HotkeysInOrder(x.nets.Keys), p);
    }
  }

  /** Equal amounts and no release that frees a new request: the orders agree. */
  lemma AgreeIfUntouched(d: Db, w: World, cp: int, x: Closing, p: Price)
    requires Unsettled(d, w.ch, x) && PriceAt(w.ch, x.tc) == Some(p)
    requires DepositsMoveNoPayout(d, w, cp, x, p) && ReleasesMeetNoPayout(d, w, cp, x, p)
    ensures PhaseA(SettleIt(d, w.ch, x), w, cp) == SettleIt(PhaseA(d, w, cp), w.ch, x)
  {
    hide Whole, NoCycleRows, NoPayoutRows, PriceAt, PhaseA, SettleIt, SpanDeposits, Reserved, Takes, HotkeysInOrder,
         DepositsMoveNoPayout,
         PayoutRows, Opened, Claims, Releases, NoneFrees, Unreleased, Deposits, OnlyDeposits;
    var es, late, l := HotkeysInOrder(x.nets.Keys), SpanDeposits(d, w, cp), Reserved(d, w.ch, x);
    var rs := Claims(w.claims, {Release}, cp);
    var takes, lateTakes := Takes(l, x.tc, x.nets, p), Takes(l + late, x.tc, x.nets, p);
    var m := SettleIt(d, w.ch, x);
    TakesIff(d, w, cp, x, p);
    SameTakesSameRows(x.cycle, x.tc, es, x.nets, takes, lateTakes, p);
    SettlesAs(d, w.ch, x);
    SettleSecond(d, w, cp, x, p);
    PhaseASecond(d, w, cp, x, p);
    PhaseAAdds(d, w, cp);
    PhaseAAdds(m, w, cp);
    OpenedIsNew(d, w.ch, x, p);
    ReleasesOver(d, m, w.ch, rs, Opens(d, w.ch, x, p));
    LateApart(d, w, cp, x);
    PayoutsApart(x, es, takes, p, late);
    Exchange(l, PayoutRows(x.cycle, x.tc, es, takes, p), late);
  }

  lemma PayoutsApart(x: Closing, es: seq<Entity>, takes: Entity -> real, p: Price, late: Ledger)
    requires OnlyDeposits(late)
    ensures PayoutRows(x.cycle, x.tc, es, takes, p).Keys !! late.Keys
  {
    hide ToUnits;
  }

  /** Where the orders agree, the amounts are equal and no release frees a new request. */
  lemma UntouchedIfAgree(d: Db, w: World, cp: int, x: Closing, p: Price)
    requires Unsettled(d, w.ch, x) && PriceAt(w.ch, x.tc) == Some(p)
    requires PhaseA(SettleIt(d, w.ch, x), w, cp) == SettleIt(PhaseA(d, w, cp), w.ch, x)
    ensures DepositsMoveNoPayout(d, w, cp, x, p) && ReleasesMeetNoPayout(d, w, cp, x, p)
  {
    hide Whole, NoCycleRows, NoPayoutRows, PriceAt, PhaseA, SettleIt, SpanDeposits, Reserved, Takes, HotkeysInOrder,
         DepositsMoveNoPayout,
         PayoutRows, Opened, Claims, Releases, NoneFrees, Unreleased, Deposits, OnlyDeposits, FloorRao, Amounts;
    var es, late, l := HotkeysInOrder(x.nets.Keys), SpanDeposits(d, w, cp), Reserved(d, w.ch, x);
    var rs := Claims(w.claims, {Release}, cp);
    var takes, lateTakes := Takes(l, x.tc, x.nets, p), Takes(l + late, x.tc, x.nets, p);
    var m := SettleIt(d, w.ch, x);
    SettlesAs(d, w.ch, x);
    SettleSecond(d, w, cp, x, p);
    PhaseAAdds(m, w, cp);
    forall e | e in es ensures takes(e) == lateTakes(e) {
      SameAmount(d, w, cp, x, p, e);
    }
    TakesIff(d, w, cp, x, p);
    SameTakesSameRows(x.cycle, x.tc, es, x.nets, takes, lateTakes, p);
    OpenedIsNew(d, w.ch, x, p);
    ReleasesOver(d, m, w.ch, rs, Opens(d, w.ch, x, p));
    PhaseAAdds(d, w, cp);
  }

  lemma SameAmount(d: Db, w: World, cp: int, x: Closing, p: Price, e: Entity)
    requires Unsettled(d, w.ch, x) && PriceAt(w.ch, x.tc) == Some(p)
    requires PhaseA(SettleIt(d, w.ch, x), w, cp) == SettleIt(PhaseA(d, w, cp), w.ch, x)
    requires e in HotkeysInOrder(x.nets.Keys)
    ensures Takes(Reserved(d, w.ch, x), x.tc, x.nets, p)(e) == Takes(Reserved(d, w.ch, x) + SpanDeposits(d, w, cp), x.tc, x.nets, p)(e)
  {
    hide Whole, NoCycleRows, NoPayoutRows, PriceAt, PhaseA, SettleIt, SpanDeposits, Reserved, PayoutOf, HotkeysInOrder,
         PayoutRows, Opened, Claims, Releases, Deposits, OnlyDeposits, FloorRao, Amounts;
    var es, late, l := HotkeysInOrder(x.nets.Keys), SpanDeposits(d, w, cp), Reserved(d, w.ch, x);
    var takes, lateTakes := Takes(l, x.tc, x.nets, p), Takes(l + late, x.tc, x.nets, p);
    if FloorRao(Amounts(x.nets)(e)) > 0.0 {
      hide Takes;
      var m := SettleIt(d, w.ch, x);
      SettlesAs(d, w.ch, x);
      SettleSecond(d, w, cp, x, p);
      PhaseAAdds(m, w, cp);
      TakesAreRecorded(x.cycle, x.tc, es, x.nets, takes, e);
      TakesAreRecorded(x.cycle, x.tc, es, x.nets, lateTakes, e);
      ReleasesKeepApproved(m, w.ch, Claims(w.claims, {Release}, cp), OfPayout(x.cycle, e));
    }
  }

  /**
   Settling a cycle and phase A of the next checkpoint, in either order, leave the same tables exactly when the
   share price at the close is not known, or no deposit of the span moves a payout and no release of the span meets
   a request a payout opens.
   */
  lemma OrdersAgreeIff(d: Db, w: World, cp: int, x: Closing)
    requires Unsettled(d, w.ch, x)
    ensures PhaseA(SettleIt(d, w.ch, x), w, cp) == SettleIt(PhaseA(d, w, cp), w.ch, x) <==> Undisturbed(d, w, cp, x)
  {
    hide Unsettled, PriceAt, PhaseA, SettleIt, DepositsMoveNoPayout, ReleasesMeetNoPayout;
    if PriceAt(w.ch, x.tc).Some? {
      var p := PriceAt(w.ch, x.tc).value;
      if Undisturbed(d, w, cp, x) {
        AgreeIfUntouched(d, w, cp, x, p);
      }
      if PhaseA(SettleIt(d, w.ch, x), w, cp) == SettleIt(PhaseA(d, w, cp), w.ch, x) {
        UntouchedIfAgree(d, w, cp, x, p);
      }
    } else {
      NothingSettled(d, w.ch, x);
      NothingSettled(PhaseA(d, w, cp), w.ch, x);
    }
  }

  lemma NothingSettled(d: Db, ch: Chain, x: Closing)
    requires PriceAt(ch, x.tc).None?
    ensures SettleIt(d, ch, x) == d
  {
    hide PriceAt;
  }

  ghost predicate Undisturbed(d: Db, w: World, cp: int, x: Closing)
  {
    var price := PriceAt(w.ch, x.tc);
    price.Some? ==> DepositsMoveNoPayout(d, w, cp, x, price.value) && ReleasesMeetNoPayout(d, w, cp, x, price.value)
  }
}
