/**
 The custodian of the vault and what the tables know of it (markets_vault.py:8-41, 225-262, 364-400): what extrinsics
 moved into the vault's stake and out of it, what each transfer out pays, and when its release claim is filed.
 */
module VaultCustody {
  import opened Wrappers
  import opened Sums
  import opened Vault
  import opened VaultLaws
  import opened VaultBalances
  import opened VaultRun
  import opened VaultSafety
  import opened VaultSchedule

  // ---------------------------------------------------------------- the custodian

  /** The extrinsics that brought alpha onto the vault's stake and how much, and those that sent alpha out, each to
      pay one request. */
  datatype Custodian = Custodian(ins: set<Extrinsic>, arrives: Extrinsic -> real, outs: set<Extrinsic>, pays: Extrinsic -> ReqKey)

  function Payee(k: ReqKey): Entity
  {
    match k
    case OfClaim(key) => Hotkey(key.hk)
    case OfPayout(_, e) => e
  }

  /** What a transfer out sent to whom it pays. */
  function Sent(ch: Chain, cu: Custodian, x: Extrinsic): real
  {
    ch.releaseAlpha(x, Payee(cu.pays(x)))
  }

  function Brought(cu: Custodian, x: Extrinsic): real
  {
    if x in cu.ins then cu.arrives(x) else 0.0
  }

  /** Alpha in shares, at the price of a block. */
  function SharesAt(ch: Chain, b: int, a: real): real
  {
    if ch.price(b).Some? then ToUnits(a, ch.price(b).value) else 0.0
  }

  function SharesIn(ch: Chain, cu: Custodian): Extrinsic -> real
  {
    (x: Extrinsic) => SharesAt(ch, x.0, cu.arrives(x))
  }

  function SharesOut(ch: Chain, cu: Custodian): Extrinsic -> real
  {
    (x: Extrinsic) => SharesAt(ch, x.0, Sent(ch, cu, x))
  }

  function UpTo(xs: set<Extrinsic>, b: int): set<Extrinsic>
  {
    set x | x in xs && x.0 <= b
  }

  /** The shares on the vault's stake at a block: what came in less what went out. */
  ghost function SharesHeld(ch: Chain, cu: Custodian, b: int): real
  {
    Sum(UpTo(cu.ins, b), SharesIn(ch, cu)) - Sum(UpTo(cu.outs, b), SharesOut(ch, cu))
  }

  /** The chain reads are those of the custodian's transfers; blocks follow in time, and the stake is worth at least
      the shares held. */
  ghost predicate Moves(ch: Chain, cu: Custodian)
  {
    && (forall x: Extrinsic, hk: nat :: Max(0.0, ch.depositAlpha(x, hk)) + Max(0.0, ch.sweepAlpha(x)) <= Brought(cu, x))
    && (forall x: Extrinsic, e: Entity :: ch.releaseAlpha(x, e) > 0.0 ==> x in cu.outs)
    && (forall x :: x in cu.outs ==> Sent(ch, cu, x) > 0.0)
    && (forall b, c :: b < c ==> ch.blockTime(b) < ch.blockTime(c))
    && (forall b :: ch.price(b).Some? ==> ToAlpha(SharesHeld(ch, cu, b), ch.price(b).value) <= ch.stake(b))
  }

  // ---------------------------------------------------------------- when a request is due

  /** The checkpoint that covers a receipt time. */
  function CheckpointOf(tRecv: int): int
  {
    -(-tRecv / (STEP_S * US)) * STEP_S
  }

  lemma CheckpointCovers(c: Claim, cp: int)
    requires cp % STEP_S == 0
    ensures InSpan(c, cp) <==> CheckpointOf(c.tRecv) == cp
  {
    var t := c.tRecv;
    var q, k := -t / 900000000, cp / 900;
    assert cp == 900 * k;
    assert 900000000 * q <= -t < 900000000 * q + 900000000;
    assert InSpan(c, cp) <==> (k - 1) * 900000000 < t <= k * 900000000;
  }

  /** The time from which a request can be open: the close of a payout's cycle, or the checkpoint of its claim. */
  ghost function DueAt(s: Setup, k: ReqKey): int
  {
    match k
    case OfPayout(n, _) => CloseOf(s, n)
    case OfClaim(key) =>
      if exists c :: c in s.w.claims && c.key == key
      then var c :| c in s.w.claims && c.key == key; CheckpointOf(c.tRecv) else 0
  }

  lemma DueAtOfClaim(s: Setup, c: Claim)
    requires Keyed(s.w.claims) && c in s.w.claims
    ensures DueAt(s, OfClaim(c.key)) == CheckpointOf(c.tRecv)
  {
    hide CheckpointOf, Keyed;
    forall d | d in s.w.claims && d.key == c.key ensures d == c {
      SameKey(s.w.claims, d, c);
    }
  }

  // ---------------------------------------------------------------- release claims

  /** A rule for release claims: the time the request is due, and the receipt of the claim. */
  type Rule = (int, int) -> bool

  /** A release claim for a transfer: made after the request was due, received after the transfer, within the rule. */
  ghost predicate Filed(s: Setup, cu: Custodian, rule: Rule, c: Claim, x: Extrinsic)
  {
    && c in s.w.claims && c.kind == Release && (c.block, c.ext) == x
    && DueAt(s, cu.pays(x)) <= s.w.ch.blockTime(x.0) <= c.tRecv / US
    && rule(DueAt(s, cu.pays(x)), c.tRecv)
  }

  /** Each transfer pays a request of its own and is claimed for that one only; it is claimed by the next checkpoint. */
  ghost predicate Files(s: Setup, cu: Custodian, rule: Rule)
  {
    && (forall x, y :: x in cu.outs && y in cu.outs && cu.pays(x) == cu.pays(y) ==> x == y)
    && (forall c :: c in s.w.claims && c.kind == Release && (c.block, c.ext) in cu.outs ==> c.ref == cu.pays((c.block, c.ext)))
    && (forall x, cp :: x in cu.outs && cp % STEP_S == 0 && s.w.ch.blockAt(cp).Some? && x.0 <= s.w.ch.blockAt(cp).value ==>
          FiledBy(s, cu, rule, x, cp))
  }

  ghost predicate FiledBy(s: Setup, cu: Custodian, rule: Rule, x: Extrinsic, cp: int)
  {
    exists c :: Filed(s, cu, rule, c, x) && c.tRecv <= cp * US
  }

  /** Every transfer claimed so far pays a request that is open, and no more than it was approved. */
  ghost predicate PaysApproved(s: Setup, cu: Custodian, rule: Rule, st: State)
  {
    forall x, c :: x in cu.outs && Filed(s, cu, rule, c, x) && c.tRecv <= CreditedThrough(s, st) * US ==>
      OpenFor(s.w.ch, cu, st.db.requests, x)
  }

  predicate OpenFor(ch: Chain, cu: Custodian, requests: map<ReqKey, Request>, x: Extrinsic)
  {
    cu.pays(x) in requests && Sent(ch, cu, x) <= requests[cu.pays(x)].approved
  }

  /** A claim's key is its signer's. */
  ghost predicate OwnKeys(s: Setup)
  {
    forall c :: c in s.w.claims ==> c.key.hk == c.hk
  }

  // ---------------------------------------------------------------- credits are for past blocks

  /** Every credit is for an extrinsic of a block no later than `t`. */
  ghost predicate InflowBy(l: Ledger, ch: Chain, t: int)
  {
    forall k :: k in l && IsInflow(l[k]) ==>
      ch.blockTime(l[k].ref.0) <= t && (l[k].kind == EmissionRow ==> ch.sweepAlpha(l[k].ref) > 0.0)
  }

  /** Nothing but rows that are no credits were added. */
  ghost predicate AddsNoCredit(l: Ledger, n: Ledger)
  {
    forall k :: k in n && IsInflow(n[k]) ==> k in l && l[k] == n[k]
  }

  lemma NoCreditKeeps(l: Ledger, n: Ledger, ch: Chain, t: int)
    requires InflowBy(l, ch, t) && AddsNoCredit(l, n)
    ensures InflowBy(n, ch, t)
  {
  }

  lemma InflowLater(l: Ledger, ch: Chain, t: int, u: int)
    requires InflowBy(l, ch, t) && t <= u
    ensures InflowBy(l, ch, u)
  {
  }

  lemma TimelyByCheckpoint(ch: Chain, c: Claim, cp: int)
    requires Timely(ch, c) && InSpan(c, cp)
    ensures ch.blockTime(c.block) <= cp
  {
  }

  lemma DepositInflow(db: Db, ch: Chain, c: Claim, cp: int)
    requires InflowBy(db.ledger, ch, cp) && InSpan(c, cp)
    ensures InflowBy(DepositOne(db, ch, c).ledger, ch, cp)
  {
    hide ToUnits, RefUsed;
    if DepositOne(db, ch, c) != db {
      TimelyByCheckpoint(ch, c, cp);
    }
    hide Timely;
  }

  lemma {:induction false} DepositsInflow(db: Db, ch: Chain, cs: seq<Claim>, cp: int)
    requires InflowBy(db.ledger, ch, cp) && forall c :: c in cs ==> InSpan(c, cp)
    ensures InflowBy(Deposits(db, ch, cs).ledger, ch, cp)
    decreases |cs|
  {
    hide DepositOne, InflowBy, InSpan;
    if cs != [] {
      DepositsInflow(db, ch, cs[..|cs| - 1], cp);
      DepositInflow(Deposits(db, ch, cs[..|cs| - 1]), ch, cs[|cs| - 1], cp);
    }
  }

  lemma SweepInflow(db: Db, w: World, cp: int, c: Claim)
    requires InflowBy(db.ledger, w.ch, cp) && InSpan(c, cp) && forall e :: Em(c.key, e) !in db.ledger
    ensures InflowBy(SweepClaim(db, w, cp, c).ledger, w.ch, cp)
  {
    hide Total, Inflow, RefUsed, Outstanding, SweepScale, CreditAll, PartsOf, HotkeysInOrder, ToUnits;
    SweepOneAdds(db.ledger, w, cp, c);
    if SweepOne(db.ledger, w, cp, c) != db.ledger {
      TimelyByCheckpoint(w.ch, c, cp);
      assert w.ch.sweepAlpha((c.block, c.ext)) > 0.0;
    }
    hide Timely, SweepOne;
  }

  lemma {:induction false} SweepsInflow(db: Db, w: World, cp: int, cs: seq<Claim>, a: set<Key>, b: set<Key>, n: nat)
    requires InflowBy(db.ledger, w.ch, cp) && KeysFrom(db, a, b, n) && Keyed(cs) && KeysOf(cs) !! b
    requires forall c :: c in cs ==> InSpan(c, cp)
    ensures InflowBy(Sweeps(db, w, cp, cs).ledger, w.ch, cp) && KeysFrom(Sweeps(db, w, cp, cs), a, b + KeysOf(cs), n)
    decreases |cs|
  {
    hide SweepClaim, KeysOf, KeysFrom, InflowBy, InSpan;
    NoKeys(b);
    if cs != [] {
      var front, c := cs[..|cs| - 1], cs[|cs| - 1];
      FrontKeys(cs);
      SweepsInflow(db, w, cp, front, a, b, n);
      SweepFrom(Sweeps(db, w, cp, front), w, cp, c, a, b + KeysOf(front), n);
      SweepInflow(Sweeps(db, w, cp, front), w, cp, c);
      assert b + KeysOf(front) + {c.key} == b + KeysOf(cs);
    }
  }

  lemma RequestAddsNoCredit(db: Db, w: World, cp: int, price: Option<Price>, c: Claim)
    ensures AddsNoCredit(db.ledger, RequestOne(db, w, cp, price, c).ledger)
  {
    hide RoomOf, ApproveOne, ForfeitRows;
    if price.Some? {
      var d := ApproveOne(db, w, cp, price.value, c);
      ApproveAddsNoCredit(db, w, cp, price.value, c);
      ForfeitAddsNoCredit(d.ledger, cp, price.value, c, RoomOf(db, w.market, Hotkey(c.hk), cp, price.value).lk);
    }
  }

  lemma ApproveAddsNoCredit(db: Db, w: World, cp: int, p: Price, c: Claim)
    ensures AddsNoCredit(db.ledger, ApproveOne(db, w, cp, p, c).ledger)
  {
    hide RoomOf, ApprovedFor, ToUnits;
  }

  lemma ForfeitAddsNoCredit(l: Ledger, cp: int, p: Price, c: Claim, lk: real)
    ensures AddsNoCredit(l, ForfeitRows(l, cp, p, c, lk))
  {
    hide ToUnits;
  }

  lemma {:induction false} RequestsAddNoCredit(db: Db, w: World, cp: int, price: Option<Price>, cs: seq<Claim>)
    ensures AddsNoCredit(db.ledger, Requests(db, w, cp, price, cs).ledger)
    decreases |cs|
  {
    hide RequestOne;
    if cs != [] {
      RequestsAddNoCredit(db, w, cp, price, cs[..|cs| - 1]);
      RequestAddsNoCredit(Requests(db, w, cp, price, cs[..|cs| - 1]), w, cp, price, cs[|cs| - 1]);
    }
  }

  lemma {:induction false} ReserveAddsNoCredit(l: Ledger, cycle: nat, tc: int, owed: map<Entity, real>, es: seq<Entity>, scale: real, p: Price)
    ensures AddsNoCredit(l, ReserveAll(l, cycle, tc, owed, es, scale, p))
    decreases |es|
  {
    if es != [] {
      hide ReservePart, ToUnits;
      ReserveAddsNoCredit(l, cycle, tc, owed, es[..|es| - 1], scale, p);
    }
  }

  lemma {:induction false} PayoutsAddNoCredit(db: Db, cycle: nat, tc: int, nets: map<Entity, real>, es: seq<Entity>, p: Price)
    ensures AddsNoCredit(db.ledger, PayoutAll(db, cycle, tc, nets, es, p).ledger)
    decreases |es|
  {
    if es != [] {
      hide PayoutOf, ToUnits, FloorRao;
      PayoutsAddNoCredit(db, cycle, tc, nets, es[..|es| - 1], p);
    }
  }

  lemma SettleAddsNoCredit(db: Db, ch: Chain, cycle: nat, tc: int, owed: map<Entity, real>, nets: map<Entity, real>)
    ensures AddsNoCredit(db.ledger, Settle(db, ch, cycle, tc, owed, nets).ledger)
  {
    hide ReserveAll, ReserveScale, PayoutAll, HotkeysInOrder, PriceAt;
    if PriceAt(ch, tc).Some? {
      var p := PriceAt(ch, tc).value;
      ReserveAddsNoCredit(db.ledger, cycle, tc, owed, HotkeysInOrder(owed.Keys), ReserveScale(db.ledger, tc, owed, p), p);
      PayoutsAddNoCredit(ReservePay(db, ch, cycle, tc, owed), cycle, tc, nets, HotkeysInOrder(nets.Keys), p);
    }
  }

  // ---------------------------------------------------------------- requests say what they are

  /** A request belongs to its key's payee, is open from its due time, and is released by a transfer that pays it. */
  ghost predicate RequestAs(s: Setup, cu: Custodian, k: ReqKey, r: Request, t: int)
  {
    && r.entity == Payee(k) && r.cp == DueAt(s, k)
    && (r.releasedBy.Some? ==>
          var x := r.releasedBy.value;
          x in cu.outs && cu.pays(x) == k && s.w.ch.blockTime(x.0) <= t)
  }

  ghost predicate RequestsAs(s: Setup, cu: Custodian, requests: map<ReqKey, Request>, t: int)
  {
    forall k :: k in requests ==> RequestAs(s, cu, k, requests[k], t)
  }

  lemma RequestsAsLater(s: Setup, cu: Custodian, requests: map<ReqKey, Request>, t: int, u: int)
    requires RequestsAs(s, cu, requests, t) && t <= u
    ensures RequestsAs(s, cu, requests, u)
  {
    hide DueAt;
  }

  lemma ReleaseAs(s: Setup, cu: Custodian, rule: Rule, db: Db, c: Claim, cp: int)
    requires RequestsAs(s, cu, db.requests, cp) && Moves(s.w.ch, cu) && Files(s, cu, rule)
    requires c in s.w.claims && c.kind == Release && InSpan(c, cp)
    ensures RequestsAs(s, cu, ReleaseOne(db, s.w.ch, c).requests, cp)
  {
    hide DueAt, Filed, FiledBy, ReleasedWith, SharesHeld;
  }

  lemma {:induction false} ReleasesAs(s: Setup, cu: Custodian, rule: Rule, db: Db, cs: seq<Claim>, cp: int)
    requires RequestsAs(s, cu, db.requests, cp) && Moves(s.w.ch, cu) && Files(s, cu, rule)
    requires forall c :: c in cs ==> c in s.w.claims && c.kind == Release && InSpan(c, cp)
    ensures RequestsAs(s, cu, Releases(db, s.w.ch, cs).requests, cp)
    decreases |cs|
  {
    hide RequestsAs, Moves, Files, ReleaseOne, InSpan;
    if cs != [] {
      ReleasesAs(s, cu, rule, db, cs[..|cs| - 1], cp);
      ReleaseAs(s, cu, rule, Releases(db, s.w.ch, cs[..|cs| - 1]), cs[|cs| - 1], cp);
    }
  }

  /** Old requests stay as they are; a new one is due now and not released. */
  ghost predicate OpensAs(s: Setup, before: map<ReqKey, Request>, after: map<ReqKey, Request>, at: int)
  {
    && (forall k :: k in before ==> k in after && Same(before[k], after[k]))
    && (forall k :: k in after && k !in before ==> after[k].entity == Payee(k) && after[k].cp == DueAt(s, k) == at && after[k].releasedBy.None?)
  }

  /** The same but for a default. */
  predicate Same(a: Request, b: Request)
  {
    b == a || (a.status == Approved && b == a.(status := Default))
  }

  lemma OpensKeepAs(s: Setup, cu: Custodian, before: map<ReqKey, Request>, after: map<ReqKey, Request>, at: int, t: int)
    requires RequestsAs(s, cu, before, t) && OpensAs(s, before, after, at)
    ensures RequestsAs(s, cu, after, t)
  {
    hide DueAt;
  }

  lemma {:induction false} RequestsOpen(s: Setup, db: Db, cp: int, price: Option<Price>, cs: seq<Claim>)
    requires Keyed(s.w.claims) && OwnKeys(s) && cp % STEP_S == 0
    requires forall c :: c in cs ==> c in s.w.claims && InSpan(c, cp)
    ensures OpensAs(s, db.requests, Requests(db, s.w, cp, price, cs).requests, cp)
    decreases |cs|
  {
    hide DueAt, InSpan, Keyed, RequestOne;
    if cs != [] {
      var front, c := cs[..|cs| - 1], cs[|cs| - 1];
      RequestsOpen(s, db, cp, price, front);
      DueAtOfClaim(s, c);
      CheckpointCovers(c, cp);
      RequestOpens(s, Requests(db, s.w, cp, price, front), cp, price, c);
    }
  }

  lemma RequestOpens(s: Setup, db: Db, cp: int, price: Option<Price>, c: Claim)
    requires DueAt(s, OfClaim(c.key)) == cp && c.key.hk == c.hk
    ensures OpensAs(s, db.requests, RequestOne(db, s.w, cp, price, c).requests, cp)
  {
    hide DueAt, RoomOf, ApprovedFor, ToUnits;
  }

  lemma {:induction false} PayoutsOpen(s: Setup, db: Db, n: nat, es: seq<Entity>, p: Price)
    ensures OpensAs(s, db.requests, PayoutAll(db, n, CloseOf(s, n), s.nets(n), es, p).requests, CloseOf(s, n))
    decreases |es|
  {
    hide PayoutOne, CloseOf, DueAt;
    if es != [] {
      var front, e := es[..|es| - 1], es[|es| - 1];
      PayoutsOpen(s, db, n, front, p);
      PayoutOpens(s, PayoutAll(db, n, CloseOf(s, n), s.nets(n), front, p), n, e, Amounts(s.nets(n))(e), p);
    }
  }

  lemma PayoutOpens(s: Setup, db: Db, n: nat, e: Entity, net: real, p: Price)
    ensures OpensAs(s, db.requests, PayoutOne(db, n, CloseOf(s, n), e, net, p).requests, CloseOf(s, n))
  {
    hide PayoutOf, ToUnits, FloorRao, CloseOf;
  }

  lemma SettleOpens(s: Setup, db: Db, n: nat)
    ensures OpensAs(s, db.requests, Settle(db, s.w.ch, n, CloseOf(s, n), s.owed(n), s.nets(n)).requests, CloseOf(s, n))
  {
    hide ReserveAll, ReserveScale, PayoutAll, HotkeysInOrder, PriceAt, CloseOf, DueAt;
    if PriceAt(s.w.ch, CloseOf(s, n)).Some? {
      var p := PriceAt(s.w.ch, CloseOf(s, n)).value;
      PayoutsOpen(s, ReservePay(db, s.w.ch, n, CloseOf(s, n), s.owed(n)), n, HotkeysInOrder(s.nets(n).Keys), p);
    }
  }

  lemma PhaseBOpens(s: Setup, db: Db, cp: int, blk: int)
    requires Keyed(s.w.claims) && OwnKeys(s) && cp % STEP_S == 0
    ensures OpensAs(s, db.requests, PhaseB(db, s.w, cp, blk).requests, cp)
  {
    hide Claims, Sweeps, Requests, CheckOf, OpensAs, Keyed, OwnKeys, InSpan;
    var xs, ys := Claims(s.w.claims, {Sweep}, cp), Claims(s.w.claims, {Withdraw, Exit}, cp);
    var db1 := Sweeps(db, s.w, cp, xs);
    SweepsFrame(db, s.w, cp, xs);
    ClaimsOfSpan(s.w.claims, {Withdraw, Exit}, cp);
    RequestsOpen(s, db1, cp, s.w.ch.price(blk), ys);
    DefaultsOpen(s, db.requests, Requests(db1, s.w, cp, s.w.ch.price(blk), ys).requests, cp);
  }

  lemma DefaultsOpen(s: Setup, before: map<ReqKey, Request>, after: map<ReqKey, Request>, cp: int)
    requires OpensAs(s, before, after, cp)
    ensures OpensAs(s, before, Defaults(after, cp), cp)
  {
    hide DueAt;
  }

  // ---------------------------------------------------------------- what every run keeps

  /** Credits are for blocks by what has been credited, and requests say what they are. */
  ghost predicate Dated(s: Setup, cu: Custodian, st: State)
  {
    InflowBy(st.db.ledger, s.w.ch, CreditedThrough(s, st)) && RequestsAs(s, cu, st.db.requests, CreditedThrough(s, st))
  }

  /** What holds of the setup and its custodian. */
  ghost predicate Honest(s: Setup, cu: Custodian, rule: Rule)
  {
    WellSet(s) && OwnKeys(s) && Moves(s.w.ch, cu) && Files(s, cu, rule)
  }

  lemma PhaseAKeepsDated(s: Setup, cu: Custodian, rule: Rule, db: Db, cp: int)
    requires Honest(s, cu, rule) && InflowBy(db.ledger, s.w.ch, cp) && RequestsAs(s, cu, db.requests, cp)
    ensures var n := PhaseA(db, s.w, cp);
            InflowBy(n.ledger, s.w.ch, cp) && RequestsAs(s, cu, n.requests, cp)
  {
    hide Claims, Deposits, Releases, InflowBy, RequestsAs, Keyed, OwnKeys, Moves, Files, Calendar, InSpan;
    var cs, rs := Claims(s.w.claims, {Deposit}, cp), Claims(s.w.claims, {Release}, cp);
    ClaimsOfSpan(s.w.claims, {Deposit}, cp);
    ClaimsOfSpan(s.w.claims, {Release}, cp);
    var d := Deposits(db, s.w.ch, cs);
    DepositsInflow(db, s.w.ch, cs, cp);
    DepositsFrame(db, s.w.ch, cs);
    ReleasesFrame(d, s.w.ch, rs);
    ReleasesAs(s, cu, rule, d, rs, cp);
  }

  lemma PhaseBKeepsDated(s: Setup, cu: Custodian, db: Db, cp: int, blk: int, a: set<Key>, n: nat)
    requires Keyed(s.w.claims) && OwnKeys(s) && cp % STEP_S == 0
    requires InflowBy(db.ledger, s.w.ch, cp) && RequestsAs(s, cu, db.requests, cp)
    requires KeysFrom(db, a, Received(s.w.claims, cp - STEP_S), n)
    ensures var n := PhaseB(db, s.w, cp, blk);
            InflowBy(n.ledger, s.w.ch, cp) && RequestsAs(s, cu, n.requests, cp)
  {
    hide Claims, Sweeps, Requests, CheckOf, InflowBy, RequestsAs, KeysFrom, Received, KeysOf, Keyed, OwnKeys, InSpan,
         AddsNoCredit;
    var xs, ys := Claims(s.w.claims, {Sweep}, cp), Claims(s.w.claims, {Withdraw, Exit}, cp);
    ClaimsOfSpan(s.w.claims, {Sweep}, cp);
    SpanIsNew(s.w.claims, {Sweep}, cp);
    var db1 := Sweeps(db, s.w, cp, xs);
    SweepsInflow(db, s.w, cp, xs, a, Received(s.w.claims, cp - STEP_S), n);
    RequestsAddNoCredit(db1, s.w, cp, s.w.ch.price(blk), ys);
    NoCreditKeeps(db1.ledger, Requests(db1, s.w, cp, s.w.ch.price(blk), ys).ledger, s.w.ch, cp);
    PhaseBOpens(s, db, cp, blk);
    OpensKeepAs(s, cu, db.requests, PhaseB(db, s.w, cp, blk).requests, cp, cp);
  }

  lemma SettleKeepsDated(s: Setup, cu: Custodian, db: Db, n: nat, t: int)
    requires InflowBy(db.ledger, s.w.ch, t) && RequestsAs(s, cu, db.requests, t)
    ensures var d := Settle(db, s.w.ch, n, CloseOf(s, n), s.owed(n), s.nets(n));
            InflowBy(d.ledger, s.w.ch, t) && RequestsAs(s, cu, d.requests, t)
  {
    hide Settle, CloseOf, InflowBy, RequestsAs, AddsNoCredit, OpensAs;
    var d := Settle(db, s.w.ch, n, CloseOf(s, n), s.owed(n), s.nets(n));
    SettleAddsNoCredit(db, s.w.ch, n, CloseOf(s, n), s.owed(n), s.nets(n));
    NoCreditKeeps(db.ledger, d.ledger, s.w.ch, t);
    SettleOpens(s, db, n);
    OpensKeepAs(s, cu, db.requests, d.requests, CloseOf(s, n), t);
  }

  /** What has been credited through does not fall back; phase B and settlement leave it. */
  lemma CreditedGrows(s: Setup, st: State, step: Step)
    requires WellSet(s) && Safe(s, st) && Enabled(s, st, step)
    ensures CreditedThrough(s, Do(s, st, step)) == if step == DoPhaseA then Next(st.db, s.first) else CreditedThrough(s, st)
    ensures CreditedThrough(s, st) <= Next(st.db, s.first)
    ensures step == DoPhaseA ==> CreditedThrough(s, st) == Next(st.db, s.first) - STEP_S
    ensures step == DoPhaseB ==> CreditedThrough(s, st) == Next(st.db, s.first)
  {
    hide Whole, KeysFrom, DebitsBy, Calendar, PhaseA, PhaseB, Settle, MaxOr, SettledThrough, CheckpointsDoneBefore;
    CheckpointAdvances(s, st, step);
    var cp := Next(st.db, s.first);
    match step
    case DoPhaseA => PhaseAFrame(st.db, s.w, cp);
    case DoPhaseB => PhaseBFrame(st.db, s.w, cp, s.w.ch.blockAt(cp).value);
    case DoSettle => SettleFrame(st.db, s.w.ch, st.settled, CloseOf(s, st.settled), s.owed(st.settled), s.nets(st.settled));
    case Decide(b) =>
  }

  lemma StepKeepsDated(s: Setup, cu: Custodian, rule: Rule, st: State, step: Step)
    requires Honest(s, cu, rule) && Safe(s, st) && Dated(s, cu, st) && Enabled(s, st, step)
    ensures Dated(s, cu, Do(s, st, step))
  {
    hide Whole, AtCursor, KeysFrom, DebitsBy, Calendar, PhaseA, PhaseB, Settle, Next, SettledThrough,
         CheckpointsDoneBefore, InflowBy,
         RequestsAs, CreditedThrough, OwnKeys, Moves, Files, Keyed, Received;
    CreditedGrows(s, st, step);
    var cp, t, n := Next(st.db, s.first), CreditedThrough(s, st), Do(s, st, step);
    match step
    case DoPhaseA =>
      InflowLater(st.db.ledger, s.w.ch, t, cp);
      RequestsAsLater(s, cu, st.db.requests, t, cp);
      PhaseAKeepsDated(s, cu, rule, st.db, cp);
    case DoPhaseB =>
      OnItsGrid(s, st);
      PhaseBKeepsDated(s, cu, st.db, cp, s.w.ch.blockAt(cp).value, Received(s.w.claims, t), st.settled);
    case DoSettle => SettleKeepsDated(s, cu, st.db, st.settled, t);
    case Decide(b) =>
  }

  lemma OnItsGrid(s: Setup, st: State)
    requires AtCursor(s, st)
    ensures Next(st.db, s.first) % STEP_S == 0
  {
  }

  lemma {:induction false} RunIsDated(s: Setup, cu: Custodian, rule: Rule, steps: seq<Step>, st: State)
    requires Honest(s, cu, rule) && Leads(s, steps, st)
    ensures Dated(s, cu, st)
    decreases |steps|
  {
    hide Enabled, Do, Safe, WellSet, OwnKeys, Moves, Files, Dated;
    if steps == [] {
      StartIsDated(s, cu);
    } else {
      var front, last := steps[..|steps| - 1], steps[|steps| - 1];
      var before :| Leads(s, front, before) && Enabled(s, before, last) && Do(s, before, last) == st;
      RunIsDated(s, cu, rule, front, before);
      ReachableIsSafe(s, front, before);
      StepKeepsDated(s, cu, rule, before, last);
    }
  }

  lemma StartIsDated(s: Setup, cu: Custodian)
    ensures Dated(s, cu, Start(s))
  {
    hide CreditedThrough;
  }

  // ---------------------------------------------------------------- before the first span

  /** At the first checkpoint, no row is older than its span, and a request from before was approved nothing. */
  ghost predicate NothingOlder(s: Setup, st: State)
  {
    var since := s.first - STEP_S;
    Next(st.db, s.first) == s.first ==>
      && (forall k :: k in st.db.ledger ==> since * US < st.db.ledger[k].t)
      && (forall k :: k in st.db.requests && st.db.requests[k].cp <= since ==> st.db.requests[k].approved == 0.0)
  }

  ghost predicate RowsAfter(l: Ledger, t: int)
  {
    forall k :: k in l ==> t < l[k].t
  }

  lemma DepositAfter(db: Db, ch: Chain, c: Claim, t: int)
    requires RowsAfter(db.ledger, t) && t < c.tRecv
    ensures RowsAfter(DepositOne(db, ch, c).ledger, t)
  {
    hide ToUnits, Timely, RefUsed;
  }

  lemma {:induction false} DepositsAfter(db: Db, ch: Chain, cs: seq<Claim>, t: int)
    requires RowsAfter(db.ledger, t) && forall c :: c in cs ==> t < c.tRecv
    ensures RowsAfter(Deposits(db, ch, cs).ledger, t)
    decreases |cs|
  {
    hide DepositOne, RowsAfter;
    if cs != [] {
      DepositsAfter(db, ch, cs[..|cs| - 1], t);
      DepositAfter(Deposits(db, ch, cs[..|cs| - 1]), ch, cs[|cs| - 1], t);
    }
  }

  lemma NoUnitsYet(l: Ledger, e: Entity, t: int, u: int)
    requires RowsAfter(l, u) && t <= u
    ensures UnitsAt(l, e, t) == 0.0
  {
    SumZero(l.Keys, UnitsTerm(l, e, t));
  }

  /** A cycle that closes before any row moves nothing. */
  lemma {:induction false} ReserveAllNothing(l: Ledger, cycle: nat, tc: int, owed: map<Entity, real>, es: seq<Entity>, p: Price)
    ensures ReserveAll(l, cycle, tc, owed, es, 0.0, p) == l
    decreases |es|
  {
    if es != [] {
      hide ToUnits;
      ReserveAllNothing(l, cycle, tc, owed, es[..|es| - 1], p);
    }
  }

  /** Nothing is posted, and new requests are approved nothing. */
  ghost predicate MovesNothing(a: Db, b: Db)
  {
    && b.ledger == a.ledger
    && (forall k :: k in a.requests ==> k in b.requests && b.requests[k] == a.requests[k])
    && (forall k :: k in b.requests && k !in a.requests ==> b.requests[k].approved == 0.0)
  }

  lemma PayoutNothing(db: Db, cycle: nat, tc: int, e: Entity, net: real, p: Price)
    requires UnitsAt(db.ledger, e, tc * US) == 0.0
    ensures MovesNothing(db, PayoutOne(db, cycle, tc, e, net, p))
  {
    hide UnitsAt, ToUnits;
    assert ToAlpha(0.0, p) == 0.0;
    hide ToAlpha;
    assert FloorRao(0.0) == 0.0;
    hide FloorRao;
  }

  lemma {:induction false} PayoutsNothing(db: Db, cycle: nat, tc: int, nets: map<Entity, real>, es: seq<Entity>, p: Price)
    requires forall e :: UnitsAt(db.ledger, e, tc * US) == 0.0
    ensures MovesNothing(db, PayoutAll(db, cycle, tc, nets, es, p))
    decreases |es|
  {
    hide UnitsAt, PayoutOne;
    if es != [] {
      PayoutsNothing(db, cycle, tc, nets, es[..|es| - 1], p);
      PayoutNothing(PayoutAll(db, cycle, tc, nets, es[..|es| - 1], p), cycle, tc, es[|es| - 1], Amounts(nets)(es[|es| - 1]), p);
    }
  }

  lemma SettleNothing(db: Db, ch: Chain, cycle: nat, tc: int, owed: map<Entity, real>, nets: map<Entity, real>)
    requires RowsAfter(db.ledger, tc * US)
    ensures MovesNothing(db, Settle(db, ch, cycle, tc, owed, nets))
  {
    hide ReserveAll, PayoutAll, HotkeysInOrder, PriceAt, UnitsAt;
    if PriceAt(ch, tc).Some? {
      var p := PriceAt(ch, tc).value;
      NoUnitsYet(db.ledger, Reserve, tc * US - 1, tc * US);
      ReserveAllNothing(db.ledger, cycle, tc, owed, HotkeysInOrder(owed.Keys), p);
      assert ToAlpha(0.0, p) == 0.0;
      assert ReservePay(db, ch, cycle, tc, owed).ledger == db.ledger;
      forall e ensures UnitsAt(db.ledger, e, tc * US) == 0.0 {
        NoUnitsYet(db.ledger, e, tc * US, tc * US);
      }
      PayoutsNothing(ReservePay(db, ch, cycle, tc, owed), cycle, tc, nets, HotkeysInOrder(nets.Keys), p);
    }
  }

  lemma {:induction false} ReserveAfter(l: Ledger, cycle: nat, tc: int, owed: map<Entity, real>, es: seq<Entity>, scale: real, p: Price, t: int)
    requires RowsAfter(l, t) && t < tc * US
    ensures RowsAfter(ReserveAll(l, cycle, tc, owed, es, scale, p), t)
    decreases |es|
  {
    hide ReservePart, ToUnits;
    if es != [] {
      ReserveAfter(l, cycle, tc, owed, es[..|es| - 1], scale, p, t);
    }
  }

  lemma {:induction false} PayoutsAfter(db: Db, cycle: nat, tc: int, nets: map<Entity, real>, es: seq<Entity>, p: Price, t: int)
    requires RowsAfter(db.ledger, t) && t < tc * US
    ensures var n := PayoutAll(db, cycle, tc, nets, es, p);
            && RowsAfter(n.ledger, t)
            && (forall k :: k in n.requests ==> (k in db.requests && n.requests[k] == db.requests[k]) || n.requests[k].cp == tc)
    decreases |es|
  {
    hide PayoutOf, ToUnits, FloorRao;
    if es != [] {
      PayoutsAfter(db, cycle, tc, nets, es[..|es| - 1], p, t);
    }
  }

  lemma SettleAfterRows(db: Db, ch: Chain, cycle: nat, tc: int, owed: map<Entity, real>, nets: map<Entity, real>, t: int)
    requires RowsAfter(db.ledger, t) && t < tc * US
    ensures var n := Settle(db, ch, cycle, tc, owed, nets);
            && RowsAfter(n.ledger, t)
            && (forall k :: k in n.requests ==> (k in db.requests && n.requests[k] == db.requests[k]) || n.requests[k].cp == tc)
  {
    hide ReserveAll, ReserveScale, PayoutAll, HotkeysInOrder, PriceAt, RowsAfter;
    if PriceAt(ch, tc).Some? {
      var p := PriceAt(ch, tc).value;
      ReserveAfter(db.ledger, cycle, tc, owed, HotkeysInOrder(owed.Keys), ReserveScale(db.ledger, tc, owed, p), p, t);
      PayoutsAfter(ReservePay(db, ch, cycle, tc, owed), cycle, tc, nets, HotkeysInOrder(nets.Keys), p, t);
    }
  }

  /** Nothing older than the first span, in tables. */
  ghost predicate OlderFree(db: Db, since: int)
  {
    && RowsAfter(db.ledger, since * US)
    && (forall k :: k in db.requests && db.requests[k].cp <= since ==> db.requests[k].approved == 0.0)
  }

  lemma SettleOlderFree(db: Db, ch: Chain, cycle: nat, tc: int, owed: map<Entity, real>, nets: map<Entity, real>, since: int)
    requires OlderFree(db, since)
    ensures OlderFree(Settle(db, ch, cycle, tc, owed, nets), since)
  {
    hide Settle, RowsAfter;
    if since < tc {
      SettleAfterRows(db, ch, cycle, tc, owed, nets, since * US);
    } else {
      assert RowsAfter(db.ledger, tc * US) by {
        RowsAfterEarlier(db.ledger, since * US, tc * US);
      }
      SettleNothing(db, ch, cycle, tc, owed, nets);
    }
  }

  lemma RowsAfterEarlier(l: Ledger, t: int, u: int)
    requires RowsAfter(l, t) && u <= t
    ensures RowsAfter(l, u)
  {
  }

  lemma {:induction false} ReleasesKeepAmounts(db: Db, ch: Chain, cs: seq<Claim>)
    ensures var n := Releases(db, ch, cs);
            && n.requests.Keys == db.requests.Keys
            && (forall k :: k in db.requests ==> n.requests[k].approved == db.requests[k].approved && n.requests[k].cp == db.requests[k].cp)
    decreases |cs|
  {
    if cs != [] {
      hide ReleasedWith;
      ReleasesKeepAmounts(db, ch, cs[..|cs| - 1]);
    }
  }

  lemma PhaseAKeepsAmounts(db: Db, w: World, cp: int)
    ensures var n := PhaseA(db, w, cp);
            && n.requests.Keys == db.requests.Keys
            && (forall k :: k in db.requests ==> n.requests[k].approved == db.requests[k].approved && n.requests[k].cp == db.requests[k].cp)
  {
    hide Claims, Deposits, Releases;
    DepositsFrame(db, w.ch, Claims(w.claims, {Deposit}, cp));
    ReleasesKeepAmounts(Deposits(db, w.ch, Claims(w.claims, {Deposit}, cp)), w.ch, Claims(w.claims, {Release}, cp));
  }

  lemma PhaseAOlderFree(db: Db, w: World, cp: int)
    requires OlderFree(db, cp - STEP_S) && Keyed(w.claims)
    ensures OlderFree(PhaseA(db, w, cp), cp - STEP_S)
  {
    PhaseAKeepsAmounts(db, w, cp);
    ClaimsOfSpan(w.claims, {Deposit}, cp);
    var cs := Claims(w.claims, {Deposit}, cp);
    DepositsAfter(db, w.ch, cs, (cp - STEP_S) * US);
    ReleasesFrame(Deposits(db, w.ch, cs), w.ch, Claims(w.claims, {Release}, cp));
    hide Claims, Deposits, Releases, RowsAfter;
  }

  lemma OlderIs(s: Setup, st: State)
    ensures NothingOlder(s, st) <==> (Next(st.db, s.first) == s.first ==> OlderFree(st.db, s.first - STEP_S))
  {
    hide Next;
  }

  lemma {:induction false} RunHasNothingOlder(s: Setup, steps: seq<Step>, st: State)
    requires WellSet(s) && Leads(s, steps, st)
    ensures NothingOlder(s, st)
    decreases |steps|
  {
    hide Enabled, Do, Safe, Calendar, OlderFree, Next, NothingOlder;
    OlderIs(s, st);
    if steps == [] {
      StartIsOlderFree(s);
    } else {
      var front, last := steps[..|steps| - 1], steps[|steps| - 1];
      var before :| Leads(s, front, before) && Enabled(s, before, last) && Do(s, before, last) == st;
      RunHasNothingOlder(s, front, before);
      ReachableIsSafe(s, front, before);
      OlderIs(s, before);
      CheckpointAdvances(s, before, last);
      OlderStep(s, before, last);
    }
  }

  lemma StartIsOlderFree(s: Setup)
    ensures OlderFree(Start(s).db, s.first - STEP_S)
  {
  }

  lemma OlderStep(s: Setup, st: State, step: Step)
    requires WellSet(s) && Safe(s, st) && Enabled(s, st, step)
    requires Next(st.db, s.first) == s.first ==> OlderFree(st.db, s.first - STEP_S)
    ensures var n := Do(s, st, step);
            Next(n.db, s.first) == s.first ==> OlderFree(n.db, s.first - STEP_S)
  {
    hide Safe, Calendar, OlderFree, Next, PhaseA, PhaseB, Settle, CheckpointsDoneBefore, SettledThrough;
    CheckpointAdvances(s, st, step);
    FirstComesFirst(s, st);
    match step
    case DoPhaseA =>
      if Next(st.db, s.first) == s.first {
        PhaseAOlderFree(st.db, s.w, s.first);
        SameOlder(PhaseA(st.db, s.w, s.first), Do(s, st, step).db, s.first - STEP_S);
      }
    case DoPhaseB =>
    case DoSettle =>
      if Next(st.db, s.first) == s.first {
        SettleOlderFree(st.db, s.w.ch, st.settled, CloseOf(s, st.settled), s.owed(st.settled), s.nets(st.settled), s.first - STEP_S);
      }
    case Decide(b) =>
  }

  lemma SameOlder(a: Db, b: Db, since: int)
    requires OlderFree(a, since) && a.ledger == b.ledger && a.requests == b.requests
    ensures OlderFree(b, since)
  {
  }

  lemma FirstComesFirst(s: Setup, st: State)
    requires Safe(s, st)
    ensures s.first <= Next(st.db, s.first)
  {
    hide Whole, KeysFrom, DebitsBy, Next;
  }
}
