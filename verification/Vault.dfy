/**
 The collateral vault ledger (sn89_signals/markets_vault.py) as functions over its tables. Balances are kept
 in shares of the vault hotkey ("units"); a checkpoint has two phases, and settlement posts between them.
 Times of claims and ledger rows are microseconds, checkpoints and cycle closes are seconds.
 */
module Vault {
  import opened Wrappers
  import opened Sums
  import opened Sorting

  /** Hotkeys are known by their rank in name order. */
  datatype Entity = Reserve | Hotkey(n: nat)

  type Price = r: real | r > 0.0 witness 1.0
  type Amount = r: real | r > 0.0 witness 1.0
  type Stake = r: real | r >= 0.0

  const STEP_S := 900
  const US := 1_000_000
  const RELEASE_DEADLINE_S := 86400
  const CLAIM_MAX_AGE_S := 86400
  const SOLVENCY_TOL := 0.001
  const RAO := 0.000000001

  // ---------------------------------------------------------------- rows

  /** The claim key `hotkey:seq`. */
  datatype Key = Key(hk: nat, seqNo: int)

  datatype Kind = Deposit | Withdraw | Exit | Release | Sweep

  /** A request is known by the claim that made it, or by the cycle and entity of a payout. */
  datatype ReqKey = OfClaim(key: Key) | OfPayout(cycle: nat, entity: Entity)

  type Extrinsic = (int, int)

  datatype Claim = Claim(key: Key, kind: Kind, hk: nat, amount: Amount, block: int, ext: int, ref: ReqKey, w: int, tRecv: int)

  datatype RowKind = DepositRow | EmissionRow | WithdrawRow | PayoutRow | ForfeitRow | ReservePayRow

  datatype LKey =
    | Dep(key: Key) | Em(key: Key, entity: Entity) | Wd(key: Key) | Forfeit(key: Key) | ForfeitIn(key: Key)
    | Payout(cycle: nat, entity: Entity) | Rsv(cycle: nat, entity: Entity) | RsvIn(cycle: nat, entity: Entity)

  datatype Row = Row(t: int, entity: Entity, units: real, alpha: real, kind: RowKind, ref: Extrinsic)

  datatype Status = Approved | Refused | Uncovered | Released | Default

  datatype Request = Request(entity: Entity, requested: real, cp: int, approved: real, status: Status,
                             releasedBy: Option<Extrinsic>, releasedAlpha: real)

  datatype ExitRow = ExitRow(afterCycle: int, forfeited: real)

  datatype Check = Check(chain: real, ledger: real, short: bool)

  type Ledger = map<LKey, Row>

  datatype Db = Db(ledger: Ledger, requests: map<ReqKey, Request>, exits: map<(Entity, int), ExitRow>,
                   checks: map<int, Check>, credit: set<int>)

  const EmptyDb := Db(map[], map[], map[], map[], {})

  // ---------------------------------------------------------------- what the ledger reads

  /** Chain reads: pure functions of a block or an extrinsic. */
  datatype Chain = Chain(
    blockAt: int -> Option<int>,
    blockTime: int -> int,
    price: int -> Option<Price>,
    depositAlpha: (Extrinsic, nat) -> real,      // moved from the hotkey's owner into the vault
    releaseAlpha: (Extrinsic, Entity) -> real,   // moved from the vault to the entity's owner
    sweepAlpha: Extrinsic -> real,               // moved from the vault's own UID onto the vault hotkey
    stake: int -> real)

  /** The last settle row of an entity: its cycle, cumulative net and high-water mark. */
  datatype LockRow = LockRow(cycle: int, rcum: real, hwm: real)

  /** What settlement and the bets contribute: the last cycle closed by a time, the settle rows through a cycle,
      the emission paid through a cycle, and the open bets at a checkpoint. */
  datatype Market = Market(
    closedBy: int -> int,
    lockRow: (Entity, int) -> Option<LockRow>,
    paidThrough: int -> map<Entity, real>,
    open: (Entity, int) -> Stake)

  datatype World = World(claims: seq<Claim>, ch: Chain, market: Market)

  // ---------------------------------------------------------------- arithmetic

  /** Quantised down to one rao. */
  function FloorRao(x: real): real
  {
    (x * 1000000000.0).Floor as real / 1000000000.0
  }

  function Max(x: real, y: real): real
  {
    if x < y then y else x
  }

  function Min(x: real, y: real): real
  {
    if y < x then y else x
  }

  function ToUnits(alpha: real, price: Price): real
  {
    alpha / price
  }

  function ToAlpha(units: real, price: Price): real
  {
    units * price
  }

  // ---------------------------------------------------------------- ledger reads

  function UnitsTerm(l: Ledger, e: Entity, t: int): LKey -> real
  {
    (k: LKey) => if k in l && l[k].entity == e && l[k].t <= t then l[k].units else 0.0
  }

  /** Units held by an entity from rows at or before `t`. */
  ghost function UnitsAt(l: Ledger, e: Entity, t: int): real
  {
    Sum(l.Keys, UnitsTerm(l, e, t))
  }

  function TotalTerm(l: Ledger, t: int): LKey -> real
  {
    (k: LKey) => if k in l && l[k].t <= t then l[k].units else 0.0
  }

  ghost function TotalAt(l: Ledger, t: int): real
  {
    Sum(l.Keys, TotalTerm(l, t))
  }

  function CreditTerm(l: Ledger, e: Entity, t: int): LKey -> real
  {
    (k: LKey) => if k in l && l[k].kind == EmissionRow && l[k].entity == e && l[k].t < t then l[k].alpha else 0.0
  }

  /** Emission credited to an entity by rows strictly before `t`. */
  ghost function CreditedBefore(l: Ledger, e: Entity, t: int): real
  {
    Sum(l.Keys, CreditTerm(l, e, t))
  }

  /** INSERT OR IGNORE. */
  function Post(l: Ledger, k: LKey, row: Row): Ledger
  {
    if k in l then l else l[k := row]
  }

  predicate RefUsed(l: Ledger, kind: RowKind, ref: Extrinsic)
  {
    exists k :: k in l && l[k].kind == kind && l[k].ref == ref
  }

  predicate ReleasedWith(requests: map<ReqKey, Request>, x: Extrinsic)
  {
    exists k :: k in requests && requests[k].releasedBy == Some(x)
  }

  function AddRequest(requests: map<ReqKey, Request>, k: ReqKey, r: Request): map<ReqKey, Request>
  {
    if k in requests then requests else requests[k := r]
  }

  /** The last cycle an exit of the entity restarts its carry after, -1 when it never exited. */
  ghost function ExitAfter(exits: map<(Entity, int), ExitRow>, e: Entity, t: int): int
  {
    var afters := set k | k in exits && k.0 == e && k.1 <= t :: exits[k].afterCycle;
    MaxOr(afters, -1)
  }

  /** The largest of `d` and the members of `s`. */
  ghost function MaxOr(s: set<int>, d: int): (m: int)
    ensures (m == d || m in s) && d <= m
    ensures forall x :: x in s ==> x <= m
    decreases |s|
  {
    if y :| y in s && y > d then
      var m := MaxOr(s - {y}, y);
      assert forall x :: x in s ==> x == y || x in s - {y};
      m
    else d
  }

  /** How far the last settle row by `t` lies below its mark; zero once an exit forfeited it. */
  ghost function Locked(db: Db, m: Market, e: Entity, t: int): real
  {
    var row := m.lockRow(e, m.closedBy(t));
    if row.None? then 0.0
    else
      var after := ExitAfter(db.exits, e, t);
      if after >= 0 && row.value.cycle <= after then 0.0
      else Max(0.0, row.value.hwm - row.value.rcum)
  }

  // ---------------------------------------------------------------- claims of a span

  predicate ClaimLeq(x: Claim, y: Claim)
  {
    x.w < y.w || (x.w == y.w && (x.tRecv < y.tRecv || (x.tRecv == y.tRecv &&
    (x.key.hk < y.key.hk || (x.key.hk == y.key.hk && x.key.seqNo <= y.key.seqNo)))))
  }

  predicate InSpan(c: Claim, cp: int)
  {
    (cp - STEP_S) * US < c.tRecv <= cp * US
  }

  function OfKinds(kinds: set<Kind>, cp: int): Claim -> bool
  {
    (c: Claim) => c.kind in kinds && InSpan(c, cp)
  }

  /** The claims of the given kinds received in (cp - step, cp], in canonical order. */
  function Claims(claims: seq<Claim>, kinds: set<Kind>, cp: int): seq<Claim>
  {
    Sort(ClaimLeq, Filter(OfKinds(kinds, cp), claims))
  }

  predicate Timely(ch: Chain, c: Claim)
  {
    c.tRecv / US - CLAIM_MAX_AGE_S <= ch.blockTime(c.block) <= c.tRecv / US
  }

  function PriceAt(ch: Chain, t: int): Option<Price>
  {
    if ch.blockAt(t).None? then None else ch.price(ch.blockAt(t).value)
  }

  // ---------------------------------------------------------------- phase A

  /** A deposit is credited at its receipt, once per extrinsic, for no more than the alpha it moved. */
  function DepositOne(db: Db, ch: Chain, c: Claim): Db
  {
    var ref := (c.block, c.ext);
    var credit := Min(c.amount, ch.depositAlpha(ref, c.hk));
    var p := ch.price(c.block);
    if RefUsed(db.ledger, DepositRow, ref) || !Timely(ch, c) || credit <= 0.0 || p.None? then db
    else
      db.(ledger := Post(db.ledger, Dep(c.key), Row(c.tRecv, Hotkey(c.hk), ToUnits(credit, p.value), credit, DepositRow, ref)))
  }

  function Deposits(db: Db, ch: Chain, cs: seq<Claim>): Db
  {
    if cs == [] then db else DepositOne(Deposits(db, ch, cs[..|cs| - 1]), ch, cs[|cs| - 1])
  }

  /** A release marks an approved request released, once per extrinsic, by a transfer made after the approval. */
  function ReleaseOne(db: Db, ch: Chain, c: Claim): Db
  {
    var x := (c.block, c.ext);
    if c.ref !in db.requests || db.requests[c.ref].status !in {Approved, Default} || ReleasedWith(db.requests, x) then db
    else
      var req := db.requests[c.ref];
      var got := ch.releaseAlpha(x, req.entity);
      if !(req.cp <= ch.blockTime(c.block) <= c.tRecv / US) || got <= 0.0 then db
      else
        db.(requests := db.requests[c.ref := req.(status := Released, releasedBy := Some(x), releasedAlpha := got)])
  }

  function Releases(db: Db, ch: Chain, cs: seq<Claim>): Db
  {
    if cs == [] then db else ReleaseOne(Releases(db, ch, cs[..|cs| - 1]), ch, cs[|cs| - 1])
  }

  function PhaseA(db: Db, w: World, cp: int): Db
  {
    Releases(Deposits(db, w.ch, Claims(w.claims, {Deposit}, cp)), w.ch, Claims(w.claims, {Release}, cp))
  }

  // ---------------------------------------------------------------- phase B: sweeps

  /** Emission paid through `cycle` and not credited before `t`; less than one rao is not owed. */
  ghost function Outstanding(l: Ledger, m: Market, cycle: int, t: int): map<Entity, real>
  {
    var paid := m.paidThrough(cycle);
    map e | e in paid && e != Reserve && paid[e] - CreditedBefore(l, e, t) >= RAO :: paid[e] - CreditedBefore(l, e, t)
  }

  function Amounts(owed: map<Entity, real>): Entity -> real
  {
    (e: Entity) => if e in owed then owed[e] else 0.0
  }

  ghost function OwedTotal(owed: map<Entity, real>): real
  {
    Sum(owed.Keys, Amounts(owed))
  }

  function Part(owed: real, scale: real): real
  {
    FloorRao(owed * scale)
  }

  ghost function SweepScale(owed: map<Entity, real>, got: real): real
  {
    var tot := OwedTotal(owed);
    if tot > 0.0 then Min(1.0, got / tot) else 0.0
  }

  /** One entity's share of a sweep. */
  function CreditOne(l: Ledger, c: Claim, t: int, e: Entity, a: real, p: Price): Ledger
  {
    if a <= 0.0 then l
    else Post(l, Em(c.key, e), Row(t, e, ToUnits(a, p), a, EmissionRow, (c.block, c.ext)))
  }

  function CreditAll(l: Ledger, c: Claim, t: int, owed: map<Entity, real>, es: seq<Entity>, scale: real, p: Price): Ledger
  {
    if es == [] then l
    else
      var e := es[|es| - 1];
      CreditOne(CreditAll(l, c, t, owed, es[..|es| - 1], scale, p), c, t, e, Part(Amounts(owed)(e), scale), p)
  }

  function PartsOf(owed: map<Entity, real>, es: seq<Entity>, scale: real): real
  {
    if es == [] then 0.0
    else PartsOf(owed, es[..|es| - 1], scale) + Max(0.0, Part(Amounts(owed)(es[|es| - 1]), scale))
  }

  /** Hotkeys in name order. */
  function HotkeysInOrder(s: set<Entity>): (o: seq<Entity>)
    ensures forall e :: e in o <==> e in s && e.Hotkey?
    ensures forall i, j :: 0 <= i < j < |o| ==> o[i] != o[j]
    decreases s
  {
    if forall e :: e in s ==> e.Reserve? then []
    else
      LeastHotkeyExists(s);
      var e :| e in s && e.Hotkey? && forall x :: x in s && x.Hotkey? ==> e.n <= x.n;
      [e] + HotkeysInOrder(s - {e})
  }

  lemma LeastHotkeyExists(s: set<Entity>)
    requires exists e :: e in s && e.Hotkey?
    ensures exists e :: e in s && e.Hotkey? && forall x :: x in s && x.Hotkey? ==> e.n <= x.n
    decreases s
  {
    var e :| e in s && e.Hotkey?;
    if x :| x in s && x.Hotkey? && x.n < e.n {
      LeastHotkeyExists(s - {e});
      var y :| y in s - {e} && y.Hotkey? && forall x :: x in s - {e} && x.Hotkey? ==> y.n <= x.n;
      assert y.n <= x.n < e.n;
      assert forall z :: z in s && z.Hotkey? ==> y.n <= z.n;
    }
  }

  ghost function SweepOne(l: Ledger, w: World, cp: int, c: Claim): Ledger
  {
    var ref := (c.block, c.ext);
    var got := w.ch.sweepAlpha(ref);
    var p := w.ch.price(c.block);
    if RefUsed(l, EmissionRow, ref) || !Timely(w.ch, c) || got <= 0.0 || p.None? then l
    else
      var owed := Outstanding(l, w.market, w.market.closedBy(cp), cp * US);
      var es := HotkeysInOrder(owed.Keys);
      var scale := SweepScale(owed, got);
      var l1 := CreditAll(l, c, cp * US, owed, es, scale, p.value);
      var left := got - PartsOf(owed, es, scale);
      if left > 0.0 && scale >= 1.0 then
        Post(l1, Em(c.key, Reserve), Row(cp * US, Reserve, ToUnits(left, p.value), left, EmissionRow, ref))
      else l1
  }

  ghost function SweepClaim(db: Db, w: World, cp: int, c: Claim): Db
  {
    db.(ledger := SweepOne(db.ledger, w, cp, c))
  }

  ghost function Sweeps(db: Db, w: World, cp: int, cs: seq<Claim>): Db
  {
    if cs == [] then db else SweepClaim(Sweeps(db, w, cp, cs[..|cs| - 1]), w, cp, cs[|cs| - 1])
  }

  // ---------------------------------------------------------------- phase B: withdrawals and exits

  /** What a withdrawal or exit may take: the balance, less what is locked, less the open bets. */
  datatype Room = Room(bal: real, lk: real, opn: real, avail: real)

  ghost function RoomOf(db: Db, m: Market, e: Entity, cp: int, price: Price): Room
  {
    var bal := ToAlpha(UnitsAt(db.ledger, e, cp * US), price);
    var lk := Min(Locked(db, m, e, cp), Max(bal, 0.0));
    var opn := m.open(e, cp);
    Room(bal, lk, opn, Max(0.0, bal - lk - opn))
  }

  ghost function ApprovedFor(r: Room, c: Claim): real
  {
    FloorRao(Min(if c.kind == Exit then r.avail else c.amount, r.avail))
  }

  /** The withdrawal part of a request: debit and record. */
  ghost function ApproveOne(db: Db, w: World, cp: int, p: Price, c: Claim): Db
  {
    var e := Hotkey(c.hk);
    var ok := ApprovedFor(RoomOf(db, w.market, e, cp, p), c);
    db.(ledger := if ok > 0.0 then Post(db.ledger, Wd(c.key), Row(cp * US, e, -ToUnits(ok, p), -ok, WithdrawRow, (0, 0))) else db.ledger,
        requests := AddRequest(db.requests, OfClaim(c.key),
                               Request(e, c.amount, cp, ok, if ok > 0.0 then Approved else Refused, None, 0.0)))
  }

  function ForfeitRows(l: Ledger, cp: int, p: Price, c: Claim, lk: real): Ledger
  {
    var u := ToUnits(lk, p);
    if lk <= 0.0 then l
    else
      Post(Post(l, Forfeit(c.key), Row(cp * US, Hotkey(c.hk), -u, -lk, ForfeitRow, (0, 0))),
           ForfeitIn(c.key), Row(cp * US, Reserve, u, lk, ForfeitRow, (0, 0)))
  }

  /** The exit part: the locked amount goes to the reserve, and the carry restarts. */
  function ExitOne(db: Db, m: Market, cp: int, p: Price, c: Claim, lk: real): Db
  {
    var k := (Hotkey(c.hk), cp);
    db.(ledger := ForfeitRows(db.ledger, cp, p, c, lk),
        exits := if k in db.exits then db.exits else db.exits[k := ExitRow(m.closedBy(cp), lk)])
  }

  ghost function RequestOne(db: Db, w: World, cp: int, price: Option<Price>, c: Claim): Db
  {
    if price.None? then
      db.(requests := AddRequest(db.requests, OfClaim(c.key), Request(Hotkey(c.hk), c.amount, cp, 0.0, Refused, None, 0.0)))
    else
      var approved := ApproveOne(db, w, cp, price.value, c);
      if c.kind != Exit then approved
      else ExitOne(approved, w.market, cp, price.value, c, RoomOf(db, w.market, Hotkey(c.hk), cp, price.value).lk)
  }

  ghost function Requests(db: Db, w: World, cp: int, price: Option<Price>, cs: seq<Claim>): Db
  {
    if cs == [] then db else RequestOne(Requests(db, w, cp, price, cs[..|cs| - 1]), w, cp, price, cs[|cs| - 1])
  }

  /** An approval that has no release within its deadline turns into a default. */
  function Defaults(requests: map<ReqKey, Request>, cp: int): map<ReqKey, Request>
  {
    map k | k in requests ::
      if requests[k].status == Approved && requests[k].cp + RELEASE_DEADLINE_S <= cp then requests[k].(status := Default)
      else requests[k]
  }

  // ---------------------------------------------------------------- phase B: solvency

  function PendingTerm(requests: map<ReqKey, Request>, cp: int): ReqKey -> real
  {
    (k: ReqKey) => if k in requests && requests[k].status in {Approved, Default} && requests[k].cp <= cp
                   then requests[k].approved else 0.0
  }

  ghost function PendingAlpha(requests: map<ReqKey, Request>, cp: int): real
  {
    Sum(requests.Keys, PendingTerm(requests, cp))
  }

  /** Every balance, the reserve, and approved withdrawals not yet released. */
  ghost function Liabilities(db: Db, cp: int, price: Option<Price>): real
  {
    (if price.Some? then ToAlpha(TotalAt(db.ledger, cp * US), price.value) else 0.0) + PendingAlpha(db.requests, cp)
  }

  ghost function CheckOf(db: Db, ch: Chain, cp: int, blk: int): Check
  {
    var owed := Liabilities(db, cp, ch.price(blk));
    Check(ch.stake(blk), owed, ch.stake(blk) < owed - SOLVENCY_TOL)
  }

  ghost function PhaseB(db: Db, w: World, cp: int, blk: int): Db
  {
    var db1 := Sweeps(db, w, cp, Claims(w.claims, {Sweep}, cp));
    var db2 := Requests(db1, w, cp, w.ch.price(blk), Claims(w.claims, {Withdraw, Exit}, cp));
    var db3 := db2.(requests := Defaults(db2.requests, cp));
    db3.(checks := db3.checks[cp := CheckOf(db3, w.ch, cp, blk)])
  }

  // ---------------------------------------------------------------- settlement

  /** The share of each claim the reserve can pay at the close. */
  ghost function ReserveScale(l: Ledger, tc: int, claims: map<Entity, real>, price: Price): real
  {
    var have := ToAlpha(UnitsAt(l, Reserve, tc * US - 1), price);
    var tot := Sum(claims.Keys, PositivePart(claims));
    if have <= 0.0 || tot <= 0.0 then 0.0 else Min(1.0, have / tot)
  }

  function PositivePart(claims: map<Entity, real>): Entity -> real
  {
    (e: Entity) => if e in claims && claims[e] > 0.0 then claims[e] else 0.0
  }

  function ReservePart(claims: map<Entity, real>, e: Entity, scale: real): real
  {
    if e in claims && claims[e] > 0.0 then FloorRao(claims[e] * scale) else 0.0
  }

  function ReserveOne(l: Ledger, cycle: nat, tc: int, e: Entity, a: real, price: Price): Ledger
  {
    if a <= 0.0 then l
    else
      var u := ToUnits(a, price);
      Post(Post(l, Rsv(cycle, e), Row(tc * US, Reserve, -u, -a, ReservePayRow, (0, 0))),
           RsvIn(cycle, e), Row(tc * US, e, u, a, ReservePayRow, (0, 0)))
  }

  function ReserveAll(l: Ledger, cycle: nat, tc: int, claims: map<Entity, real>, es: seq<Entity>, scale: real, price: Price): Ledger
  {
    if es == [] then l
    else
      var e := es[|es| - 1];
      ReserveOne(ReserveAll(l, cycle, tc, claims, es[..|es| - 1], scale, price), cycle, tc, e, ReservePart(claims, e, scale), price)
  }

  ghost function ReservePay(db: Db, ch: Chain, cycle: nat, tc: int, claims: map<Entity, real>): Db
  {
    var price := PriceAt(ch, tc);
    if price.None? then db
    else
      db.(ledger := ReserveAll(db.ledger, cycle, tc, claims, HotkeysInOrder(claims.Keys),
                               ReserveScale(db.ledger, tc, claims, price.value), price.value))
  }

  /** An entity whose players finished net ahead is debited at the close, up to its balance. */
  ghost function PayoutOf(l: Ledger, e: Entity, tc: int, net: real, price: Price): real
  {
    FloorRao(Min(FloorRao(net), Max(ToAlpha(UnitsAt(l, e, tc * US), price), 0.0)))
  }

  ghost function PayoutOne(db: Db, cycle: nat, tc: int, e: Entity, net: real, price: Price): Db
  {
    if FloorRao(net) <= 0.0 then db
    else
      var a := PayoutOf(db.ledger, e, tc, net, price);
      db.(ledger := if a > 0.0 then Post(db.ledger, Payout(cycle, e), Row(tc * US, e, -ToUnits(a, price), -a, PayoutRow, (0, 0)))
                    else db.ledger,
          requests := AddRequest(db.requests, OfPayout(cycle, e),
                                 Request(e, FloorRao(net), tc, a, if a > 0.0 then Approved else Uncovered, None, 0.0)))
  }

  ghost function PayoutAll(db: Db, cycle: nat, tc: int, nets: map<Entity, real>, es: seq<Entity>, price: Price): Db
  {
    if es == [] then db
    else
      var e := es[|es| - 1];
      PayoutOne(PayoutAll(db, cycle, tc, nets, es[..|es| - 1], price), cycle, tc, e, Amounts(nets)(e), price)
  }

  ghost function PayoutDebit(db: Db, ch: Chain, cycle: nat, tc: int, nets: map<Entity, real>): Db
  {
    var price := PriceAt(ch, tc);
    if price.None? then db else PayoutAll(db, cycle, tc, nets, HotkeysInOrder(nets.Keys), price.value)
  }

  /** What settling a cycle does to the vault: the reserve pays first, then the players' net winnings. */
  ghost function Settle(db: Db, ch: Chain, cycle: nat, tc: int, claims: map<Entity, real>, nets: map<Entity, real>): Db
  {
    PayoutDebit(ReservePay(db, ch, cycle, tc, claims), ch, cycle, tc, nets)
  }
}
