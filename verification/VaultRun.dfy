/**
 Whole runs of the vault: the phases of a checkpoint, the settlement of cycles and the decisions on bets, each
 waiting for the others (markets_vault.py:185-202, 336-362, 401-410; markets.py:1676-1692, 1755-1773). Every
 state a run can reach keeps the ledger whole.
 */
module VaultRun {
  import opened Wrappers
  import opened Sorting
  import opened Vault
  import opened VaultLaws
  import opened VaultBalances

  const GRACE_S := 900

  /** A bet waits for the ledger; its market ends some time after the bet is received. */
  datatype Bet = Bet(id: nat, tRecv: int, end: int)

  /**
   What a run is about: the claims, chain and market it reads, the first checkpoint, the starts of the settlement
   cycles, what each cycle's settlement asks of the vault, and the bets.
   */
  datatype Setup = Setup(w: World, first: int, start: nat -> int, owed: nat -> map<Entity, real>,
                         nets: nat -> map<Entity, real>, bets: set<Bet>)

  datatype State = State(db: Db, settled: nat, undecided: set<Bet>)

  datatype Step = DoPhaseA | DoPhaseB | DoSettle | Decide(bet: Bet)

  // ---------------------------------------------------------------- the setup

  function CloseOf(s: Setup, n: nat): int
  {
    s.start(n + 1) + GRACE_S
  }

  /** Claims carry distinct keys: the table's primary key. */
  ghost predicate Keyed(claims: seq<Claim>)
  {
    forall i, j :: 0 <= i < j < |claims| ==> claims[i].key != claims[j].key
  }

  /** `closedBy` is the start of the last cycle whose end and grace have passed, or a time before the first. */
  ghost predicate Calendar(s: Setup)
  {
    && (forall n: nat :: s.start(n) < s.start(n + 1))
    && (forall t, n: nat :: s.start(n) <= s.w.market.closedBy(t) <==> CloseOf(s, n) <= t)
    && (forall t :: s.start(0) <= s.w.market.closedBy(t) ==> exists n: nat :: s.w.market.closedBy(t) == s.start(n))
  }

  ghost predicate WellSet(s: Setup)
  {
    && Keyed(s.w.claims)
    && s.first % STEP_S == 0
    && Calendar(s)
    && (forall b :: b in s.bets ==> b.tRecv < b.end * US)
  }

  // ---------------------------------------------------------------- cursors and guards

  /** The checkpoint to do next: the first, or the one after the last check. */
  ghost function Next(db: Db, first: int): int
  {
    MaxOr(db.checks.Keys, first - STEP_S) + STEP_S
  }

  /** The grid point at or after a time in seconds. */
  function GridCeil(t: int): int
  {
    -(-t / STEP_S) * STEP_S
  }

  /** Phase A of the checkpoint that covers `t`, or of a later one, is done. */
  predicate ReadyFor(db: Db, t: int)
  {
    exists c :: c in db.credit && GridCeil(t) <= c
  }

  /** The last grid point before `t` has been checked, if the vault was open then. */
  ghost predicate CheckpointsDoneBefore(db: Db, first: int, t: int)
  {
    var last := (t - 1) / STEP_S * STEP_S;
    last < first || (exists c :: c in db.checks && last <= c)
  }

  /** The cycles closed by `t` are settled. */
  predicate SettledThrough(s: Setup, settled: nat, t: int)
  {
    s.w.market.closedBy(t) < s.start(0) || (settled > 0 && s.w.market.closedBy(t) <= s.start(settled - 1))
  }

  predicate PhaseBReady(s: Setup, st: State, cp: int)
  {
    SettledThrough(s, st.settled, cp) && forall b :: b in st.undecided ==> cp * US < b.tRecv
  }

  ghost predicate Enabled(s: Setup, st: State, step: Step)
  {
    var cp := Next(st.db, s.first);
    match step
    case DoPhaseA => s.w.ch.blockAt(cp).Some? && cp !in st.db.credit
    case DoPhaseB => s.w.ch.blockAt(cp).Some? && cp in st.db.credit && PhaseBReady(s, st, cp)
    case DoSettle =>
      && CheckpointsDoneBefore(st.db, s.first, CloseOf(s, st.settled))
      && (forall b :: b in st.undecided ==> s.start(st.settled + 1) <= b.end)
    case Decide(b) =>
      && b in st.undecided && ReadyFor(st.db, b.tRecv / US) && SettledThrough(s, st.settled, b.tRecv / US)
  }

  ghost function Do(s: Setup, st: State, step: Step): State
    requires Enabled(s, st, step)
  {
    var cp := Next(st.db, s.first);
    match step
    case DoPhaseA => st.(db := PhaseA(st.db, s.w, cp).(credit := st.db.credit + {cp}))
    case DoPhaseB => st.(db := PhaseB(st.db, s.w, cp, s.w.ch.blockAt(cp).value))
    case DoSettle =>
      var n := st.settled;
      State(Settle(st.db, s.w.ch, n, CloseOf(s, n), s.owed(n), s.nets(n)), n + 1, st.undecided)
    case Decide(b) => st.(undecided := st.undecided - {b})
  }

  ghost function Start(s: Setup): State
  {
    State(EmptyDb, 0, s.bets)
  }

  /** `st` is what the steps lead to, each enabled when it is taken. */
  ghost predicate Leads(s: Setup, steps: seq<Step>, st: State)
  {
    if steps == [] then st == Start(s)
    else
      var front, last := steps[..|steps| - 1], steps[|steps| - 1];
      exists before :: Leads(s, front, before) && Enabled(s, before, last) && Do(s, before, last) == st
  }

  // ---------------------------------------------------------------- the claims of a span

  lemma {:induction false} CountTwice<T>(s: seq<T>, i: nat, j: nat)
    requires i < j < |s| && s[i] == s[j]
    ensures multiset(s)[s[i]] >= 2
  {
    assert s == s[..j] + s[j..];
    assert s[..j][i] == s[i] && s[j..][0] == s[j];
    assert s[i] in multiset(s[..j]) && s[i] in multiset(s[j..]);
  }

  lemma {:induction false} CountOnce(s: seq<Claim>, x: Claim)
    requires Keyed(s)
    ensures multiset(s)[x] <= 1
    decreases |s|
  {
    if s != [] {
      var front, last := s[..|s| - 1], s[|s| - 1];
      assert s == front + [last];
      CountOnce(front, x);
      forall i | 0 <= i < |front| ensures front[i] != last {
        assert s[i].key != s[|s| - 1].key;
      }
    }
  }

  lemma {:induction false} FilterCount(keep: Claim -> bool, s: seq<Claim>)
    ensures multiset(Filter(keep, s)) <= multiset(s)
    decreases |s|
  {
    if s != [] {
      FilterCount(keep, s[..|s| - 1]);
      assert s == s[..|s| - 1] + [s[|s| - 1]];
    }
  }

  /** The claims of a span are claims, of that span, each key once. */
  lemma ClaimsOfSpan(claims: seq<Claim>, kinds: set<Kind>, cp: int)
    requires Keyed(claims)
    ensures var cs := Claims(claims, kinds, cp);
            Keyed(cs) && forall c :: c in cs ==> c in claims && c.kind in kinds && InSpan(c, cp)
  {
    var f := Filter(OfKinds(kinds, cp), claims);
    var cs := Claims(claims, kinds, cp);
    FilterElements(OfKinds(kinds, cp), claims);
    SortElements(ClaimLeq, f);
    forall i, j | 0 <= i < j < |cs| ensures cs[i].key != cs[j].key {
      if cs[i].key == cs[j].key {
        SameKey(claims, cs[i], cs[j]);
        FilterCount(OfKinds(kinds, cp), claims);
        CountOnce(claims, cs[i]);
        CountTwice(cs, i, j);
        assert false;
      }
    }
  }

  lemma SameKey(claims: seq<Claim>, x: Claim, y: Claim)
    requires Keyed(claims) && x in claims && y in claims && x.key == y.key
    ensures x == y
  {
  }

  // ---------------------------------------------------------------- where rows come from

  function KeysOf(cs: seq<Claim>): set<Key>
  {
    set c | c in cs :: c.key
  }

  /** The keys of claims received at or before `t` seconds. */
  function Received(claims: seq<Claim>, t: int): set<Key>
  {
    set c | c in claims && c.tRecv <= t * US :: c.key
  }

  predicate RowFrom(k: LKey, a: set<Key>, b: set<Key>, n: nat)
  {
    match k
    case Dep(key) => key in a
    case Em(key, _) => key in b
    case Wd(key) => key in b
    case Forfeit(key) => key in b
    case ForfeitIn(key) => key in b
    case Payout(cycle, _) => cycle < n
    case Rsv(cycle, _) => cycle < n
    case RsvIn(cycle, _) => cycle < n
  }

  predicate RequestFrom(k: ReqKey, b: set<Key>, n: nat)
  {
    match k
    case OfClaim(key) => key in b
    case OfPayout(cycle, _) => cycle < n
  }

  /** Every row was posted for a claim already applied or a cycle already settled. */
  ghost predicate KeysFrom(db: Db, a: set<Key>, b: set<Key>, n: nat)
  {
    && (forall k :: k in db.ledger ==> RowFrom(k, a, b, n))
    && (forall k :: k in db.requests ==> RequestFrom(k, b, n))
  }

  /** The claims of a span have not been applied before. */
  lemma SpanIsNew(claims: seq<Claim>, kinds: set<Kind>, cp: int)
    requires Keyed(claims)
    ensures KeysOf(Claims(claims, kinds, cp)) !! Received(claims, cp - STEP_S)
    ensures KeysOf(Claims(claims, kinds, cp)) <= Received(claims, cp)
  {
    ClaimsOfSpan(claims, kinds, cp);
    var cs := Claims(claims, kinds, cp);
    forall key | key in KeysOf(cs) ensures key !in Received(claims, cp - STEP_S) {
      var x :| x in cs && x.key == key;
      forall y | y in claims && y.key == key ensures y == x {
        SameKey(claims, x, y);
      }
    }
  }

  lemma FrontKeys(cs: seq<Claim>)
    requires cs != [] && Keyed(cs)
    ensures var front, c := cs[..|cs| - 1], cs[|cs| - 1];
            Keyed(front) && KeysOf(cs) == KeysOf(front) + {c.key} && c.key !in KeysOf(front)
  {
    var front, c := cs[..|cs| - 1], cs[|cs| - 1];
    assert cs == front + [c];
    forall i | 0 <= i < |front| ensures front[i].key != c.key {
      assert cs[i].key != cs[|cs| - 1].key;
    }
  }

  lemma NoKeys(b: set<Key>)
    ensures b + KeysOf([]) == b
  {
  }

  // ---------------------------------------------------------------- phase A keeps the ledger whole

  lemma DepositFrom(db: Db, ch: Chain, c: Claim, a: set<Key>, b: set<Key>, n: nat)
    requires KeysFrom(db, a, b, n) && c.key !in a
    ensures Dep(c.key) !in db.ledger && KeysFrom(DepositOne(db, ch, c), a + {c.key}, b, n)
  {
    hide ToUnits, Timely, RefUsed;
    assert Dep(c.key) in db.ledger ==> RowFrom(Dep(c.key), a, b, n);
  }

  lemma {:induction false} DepositsKeep(db: Db, ch: Chain, cs: seq<Claim>, t: int, a: set<Key>, b: set<Key>, n: nat)
    requires Whole(db, ch, t) && KeysFrom(db, a, b, n) && Keyed(cs) && KeysOf(cs) !! a
    ensures Whole(Deposits(db, ch, cs), ch, t) && KeysFrom(Deposits(db, ch, cs), a + KeysOf(cs), b, n)
    decreases |cs|
  {
    hide Whole, DepositOne, KeysOf, KeysFrom;
    NoKeys(a);
    if cs != [] {
      var front, c := cs[..|cs| - 1], cs[|cs| - 1];
      FrontKeys(cs);
      DepositsKeep(db, ch, front, t, a, b, n);
      DepositFrom(Deposits(db, ch, front), ch, c, a + KeysOf(front), b, n);
      DepositKeepsWhole(Deposits(db, ch, front), ch, c, t);
      assert a + KeysOf(front) + {c.key} == a + KeysOf(cs);
    }
  }

  lemma {:induction false} ReleasesKeep(db: Db, ch: Chain, cs: seq<Claim>, t: int)
    requires Whole(db, ch, t)
    ensures var n := Releases(db, ch, cs);
            Whole(n, ch, t) && n.ledger == db.ledger && n.requests.Keys == db.requests.Keys
    decreases |cs|
  {
    if cs != [] {
      hide Whole;
      ReleasesKeep(db, ch, cs[..|cs| - 1], t);
      ReleaseKeepsWhole(Releases(db, ch, cs[..|cs| - 1]), ch, cs[|cs| - 1], t);
    }
  }

  lemma PhaseAKeeps(db: Db, w: World, cp: int, t: int, a: set<Key>, b: set<Key>, n: nat)
    requires Whole(db, w.ch, t) && KeysFrom(db, a, b, n) && Keyed(w.claims) && a == Received(w.claims, cp - STEP_S)
    ensures Whole(PhaseA(db, w, cp), w.ch, t) && KeysFrom(PhaseA(db, w, cp), Received(w.claims, cp), b, n)
  {
    hide Whole, Claims, Deposits, Releases, Received, KeysOf;
    var cs := Claims(w.claims, {Deposit}, cp);
    ClaimsOfSpan(w.claims, {Deposit}, cp);
    SpanIsNew(w.claims, {Deposit}, cp);
    ReceivedGrows(w.claims, cp);
    DepositsKeep(db, w.ch, cs, t, a, b, n);
    ReleasesKeep(Deposits(db, w.ch, cs), w.ch, Claims(w.claims, {Release}, cp), t);
  }

  lemma ReceivedGrows(claims: seq<Claim>, cp: int)
    ensures Received(claims, cp - STEP_S) <= Received(claims, cp)
  {
  }

  // ---------------------------------------------------------------- phase B keeps the ledger whole

  lemma SweepFrom(db: Db, w: World, cp: int, c: Claim, a: set<Key>, b: set<Key>, n: nat)
    requires KeysFrom(db, a, b, n) && c.key !in b
    ensures forall e :: Em(c.key, e) !in db.ledger
    ensures KeysFrom(SweepClaim(db, w, cp, c), a, b + {c.key}, n)
  {
    hide SweepOne, SweepRow, Total, Inflow, RefUsed, ToUnits;
    forall e ensures Em(c.key, e) !in db.ledger {
      assert Em(c.key, e) in db.ledger ==> RowFrom(Em(c.key, e), a, b, n);
    }
    SweepOneAdds(db.ledger, w, cp, c);
  }

  lemma {:induction false} SweepsKeep(db: Db, w: World, cp: int, cs: seq<Claim>, t: int, a: set<Key>, b: set<Key>, n: nat)
    requires Whole(db, w.ch, t) && KeysFrom(db, a, b, n) && Keyed(cs) && KeysOf(cs) !! b
    ensures var d := Sweeps(db, w, cp, cs);
            Whole(d, w.ch, t) && KeysFrom(d, a, b + KeysOf(cs), n)
    decreases |cs|
  {
    hide Whole, SweepClaim, KeysOf, KeysFrom;
    NoKeys(b);
    if cs != [] {
      var front, c := cs[..|cs| - 1], cs[|cs| - 1];
      FrontKeys(cs);
      SweepsKeep(db, w, cp, front, t, a, b, n);
      var d := Sweeps(db, w, cp, front);
      SweepFrom(d, w, cp, c, a, b + KeysOf(front), n);
      SweepKeepsWhole(d, w, cp, c, t);
      assert b + KeysOf(front) + {c.key} == b + KeysOf(cs);
    }
  }

  lemma RequestFromClaim(db: Db, w: World, cp: int, price: Option<Price>, c: Claim, a: set<Key>, b: set<Key>, n: nat)
    requires KeysFrom(db, a, b, n) && c.key !in b
    ensures NoRows(db, c.key) && KeysFrom(RequestOne(db, w, cp, price, c), a, b + {c.key}, n)
  {
    hide RoomOf, ApproveOne, ExitOne;
    assert forall k :: k in db.ledger ==> RowFrom(k, a, b, n);
    assert OfClaim(c.key) in db.requests ==> RequestFrom(OfClaim(c.key), b, n);
    if price.Some? {
      ApproveFrom(db, w, cp, price.value, c, a, b, n);
      ExitFrom(ApproveOne(db, w, cp, price.value, c), w.market, cp, price.value, c, RoomOf(db, w.market, Hotkey(c.hk), cp, price.value).lk,
               a, b + {c.key}, n);
    }
  }

  lemma ApproveFrom(db: Db, w: World, cp: int, p: Price, c: Claim, a: set<Key>, b: set<Key>, n: nat)
    requires KeysFrom(db, a, b, n)
    ensures KeysFrom(ApproveOne(db, w, cp, p, c), a, b + {c.key}, n)
  {
    hide RoomOf, ApprovedFor, ToUnits;
  }

  lemma ExitFrom(db: Db, m: Market, cp: int, p: Price, c: Claim, lk: real, a: set<Key>, b: set<Key>, n: nat)
    requires KeysFrom(db, a, b, n) && c.key in b
    ensures KeysFrom(ExitOne(db, m, cp, p, c, lk), a, b, n)
  {
    hide ToUnits;
  }

  lemma {:induction false} RequestsKeep(db: Db, w: World, cp: int, price: Option<Price>, cs: seq<Claim>, a: set<Key>, b: set<Key>, n: nat)
    requires Whole(db, w.ch, cp * US) && KeysFrom(db, a, b, n) && Keyed(cs) && KeysOf(cs) !! b
    requires price == PriceAt(w.ch, cp)
    ensures var d := Requests(db, w, cp, price, cs);
            Whole(d, w.ch, cp * US) && KeysFrom(d, a, b + KeysOf(cs), n)
    decreases |cs|
  {
    hide Whole, KeysOf, RequestOne, KeysFrom, NoRows, PriceAt;
    NoKeys(b);
    if cs != [] {
      var front, c := cs[..|cs| - 1], cs[|cs| - 1];
      FrontKeys(cs);
      RequestsKeep(db, w, cp, price, front, a, b, n);
      var d := Requests(db, w, cp, price, front);
      RequestFromClaim(d, w, cp, price, c, a, b + KeysOf(front), n);
      RequestKeepsWhole(d, w, cp, price, c);
      assert b + KeysOf(front) + {c.key} == b + KeysOf(cs);
    }
  }

  /** The two kinds of claims phase B applies have different keys. */
  lemma SweepsAndRequestsDiffer(claims: seq<Claim>, cp: int)
    requires Keyed(claims)
    ensures KeysOf(Claims(claims, {Sweep}, cp)) !! KeysOf(Claims(claims, {Withdraw, Exit}, cp))
  {
    hide Claims;
    ClaimsOfSpan(claims, {Sweep}, cp);
    ClaimsOfSpan(claims, {Withdraw, Exit}, cp);
    var xs, ys := Claims(claims, {Sweep}, cp), Claims(claims, {Withdraw, Exit}, cp);
    forall key | key in KeysOf(xs) ensures key !in KeysOf(ys) {
      var x :| x in xs && x.key == key;
      forall y | y in ys && y.key == key ensures y == x {
        SameKey(claims, x, y);
      }
    }
  }

  lemma PhaseBKeeps(db: Db, w: World, cp: int, blk: int, a: set<Key>, b: set<Key>, n: nat)
    requires Whole(db, w.ch, cp * US) && KeysFrom(db, a, b, n) && Keyed(w.claims) && b == Received(w.claims, cp - STEP_S)
    requires w.ch.blockAt(cp) == Some(blk)
    ensures Whole(PhaseB(db, w, cp, blk), w.ch, cp * US)
    ensures KeysFrom(PhaseB(db, w, cp, blk), a, Received(w.claims, cp), n)
  {
    hide Whole, Claims, Sweeps, Requests, Received, KeysOf, CheckOf;
    var xs, ys := Claims(w.claims, {Sweep}, cp), Claims(w.claims, {Withdraw, Exit}, cp);
    ClaimsOfSpan(w.claims, {Sweep}, cp);
    ClaimsOfSpan(w.claims, {Withdraw, Exit}, cp);
    SpanIsNew(w.claims, {Sweep}, cp);
    SpanIsNew(w.claims, {Withdraw, Exit}, cp);
    SweepsAndRequestsDiffer(w.claims, cp);
    ReceivedGrows(w.claims, cp);
    var db1 := Sweeps(db, w, cp, xs);
    SweepsKeep(db, w, cp, xs, cp * US, a, b, n);
    RequestsKeep(db1, w, cp, PriceAt(w.ch, cp), ys, a, b + KeysOf(xs), n);
    var db2 := Requests(db1, w, cp, PriceAt(w.ch, cp), ys);
    DefaultsKeepWhole(db2, w.ch, cp, cp * US);
    ExitsDoNotMatter(db2.(requests := Defaults(db2.requests, cp)), PhaseB(db, w, cp, blk), w.ch, cp * US);
  }

  // ---------------------------------------------------------------- settlement keeps the ledger whole

  lemma NoRowsYet(db: Db, cycle: nat, a: set<Key>, b: set<Key>, es: seq<Entity>)
    requires KeysFrom(db, a, b, cycle)
    ensures NoCycleRows(db, cycle, es) && NoPayoutRows(db, cycle, es)
  {
    forall e | e in es
      ensures Rsv(cycle, e) !in db.ledger && RsvIn(cycle, e) !in db.ledger && Payout(cycle, e) !in db.ledger
      ensures OfPayout(cycle, e) !in db.requests
    {
      assert forall k :: k in db.ledger ==> RowFrom(k, a, b, cycle);
      assert OfPayout(cycle, e) in db.requests ==> RequestFrom(OfPayout(cycle, e), b, cycle);
    }
  }

  lemma SettleKeeps(db: Db, ch: Chain, cycle: nat, tc: int, owed: map<Entity, real>, nets: map<Entity, real>, a: set<Key>, b: set<Key>)
    requires Whole(db, ch, tc * US - 1) && KeysFrom(db, a, b, cycle)
    ensures Whole(Settle(db, ch, cycle, tc, owed, nets), ch, tc * US)
  {
    hide Whole, ReserveAll, PayoutAll, ReserveScale, HotkeysInOrder, KeysFrom, NoCycleRows, NoPayoutRows;
    var es, ps := HotkeysInOrder(owed.Keys), HotkeysInOrder(nets.Keys);
    NoRowsYet(db, cycle, a, b, es);
    ReservePayKeepsWhole(db, ch, cycle, tc, owed);
    var db1 := ReservePay(db, ch, cycle, tc, owed);
    if PriceAt(ch, tc).Some? {
      var p := PriceAt(ch, tc).value;
      NoRowsYet(db, cycle, a, b, ps);
      ReservePostsNoPayout(db, ch, cycle, tc, owed, ps);
      HotkeysOnce(nets.Keys);
      PayoutAllKeepsWhole(db1, ch, cycle, tc, nets, ps, p);
    }
  }

  lemma ReservePostsNoPayout(db: Db, ch: Chain, cycle: nat, tc: int, owed: map<Entity, real>, ps: seq<Entity>)
    requires NoPayoutRows(db, cycle, ps)
    ensures NoPayoutRows(ReservePay(db, ch, cycle, tc, owed), cycle, ps)
  {
    hide ReserveAll, ReserveScale, HotkeysInOrder;
    if PriceAt(ch, tc).Some? {
      var p := PriceAt(ch, tc).value;
      ReserveAllKeys(db.ledger, cycle, tc, owed, HotkeysInOrder(owed.Keys), ReserveScale(db.ledger, tc, owed, p), p);
    }
  }

  lemma SettleFrom(db: Db, ch: Chain, cycle: nat, tc: int, owed: map<Entity, real>, nets: map<Entity, real>, a: set<Key>, b: set<Key>)
    requires KeysFrom(db, a, b, cycle)
    ensures KeysFrom(Settle(db, ch, cycle, tc, owed, nets), a, b, cycle + 1)
  {
    hide ReserveAll, PayoutAll, ReserveScale, HotkeysInOrder;
    LaterCycle(db, a, b, cycle);
    if PriceAt(ch, tc).Some? {
      var p := PriceAt(ch, tc).value;
      ReserveAllKeys(db.ledger, cycle, tc, owed, HotkeysInOrder(owed.Keys), ReserveScale(db.ledger, tc, owed, p), p);
      PayoutAllKeys(ReservePay(db, ch, cycle, tc, owed), cycle, tc, nets, HotkeysInOrder(nets.Keys), p);
    }
  }

  lemma LaterCycle(db: Db, a: set<Key>, b: set<Key>, n: nat)
    requires KeysFrom(db, a, b, n)
    ensures KeysFrom(db, a, b, n + 1)
  {
  }

  lemma HotkeysOnce(s: set<Entity>)
    ensures forall i, j :: 0 <= i < j < |HotkeysInOrder(s)| ==> HotkeysInOrder(s)[i] != HotkeysInOrder(s)[j]
  {
    var o := HotkeysInOrder(s);
    assert forall i, j :: 0 <= i < j < |o| ==> o[i] != o[j];
  }
}
