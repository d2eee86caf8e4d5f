/**
 What the solvency check of a checkpoint compares (markets_vault.py:451-467): while the share price does not fall, a
 stake worth what arrived less what was released covers every balance, the reserve and the approved amounts.
 */
module VaultSolvency {
  import opened Wrappers
  import opened Sums
  import opened Vault
  import opened VaultLaws
  import opened VaultBalances
  import opened VaultRun
  import opened VaultSafety

  // ---------------------------------------------------------------- assumptions

  /** The share price is known and never falls, and `blockAt` is the first block at or after a time. */
  ghost predicate PriceNeverFalls(ch: Chain)
  {
    && (forall b :: ch.price(b).Some?)
    && (forall b, c :: b <= c ==> ch.price(b).value <= ch.price(c).value)
    && (forall t :: ch.blockAt(t).Some? ==> t <= ch.blockTime(ch.blockAt(t).value))
    && (forall t, b :: ch.blockAt(t).Some? && t <= ch.blockTime(b) ==> ch.blockAt(t).value <= b)
  }

  /** Shares a released request took out of the vault. */
  function ReleasedOf(ch: Chain, r: Request): real
  {
    if r.status == Released && r.releasedBy.Some? && ch.price(r.releasedBy.value.0).Some?
    then ToUnits(r.releasedAlpha, ch.price(r.releasedBy.value.0).value) else 0.0
  }

  function ReleasedTerm(ch: Chain, requests: map<ReqKey, Request>): ReqKey -> real
  {
    (k: ReqKey) => if k in requests then ReleasedOf(ch, requests[k]) else 0.0
  }

  ghost function ReleasedShares(ch: Chain, requests: map<ReqKey, Request>): real
  {
    Sum(requests.Keys, ReleasedTerm(ch, requests))
  }

  /** No release is larger than what was approved. */
  ghost predicate HonestReleases(requests: map<ReqKey, Request>)
  {
    forall k :: k in requests && requests[k].status == Released ==> requests[k].releasedAlpha <= requests[k].approved
  }

  /** What the vault's stake at the checkpoint's block is worth: at least what arrived, less what was released. */
  ghost predicate StakeHeld(db: Db, ch: Chain, blk: int)
  {
    ch.price(blk).Some?
    && ToAlpha(Arrived(db.ledger, ch) - ReleasedShares(ch, db.requests), ch.price(blk).value) <= ch.stake(blk)
  }

  // ---------------------------------------------------------------- one request

  function Worth(p: Price, u: real): real
  {
    ToAlpha(u, p)
  }

  /** What a request was debited is worth at least what is still owed on it and what was released for it. */
  lemma DebitCovers(ch: Chain, r: Request, cp: int, p: Price)
    requires RequestSound(r, ch) && PriceNeverFalls(ch) && PriceAt(ch, cp) == Some(p)
    requires r.status == Released ==> r.releasedAlpha <= r.approved
    ensures (if r.status in {Approved, Default} && r.cp <= cp then r.approved else 0.0) + Worth(p, ReleasedOf(ch, r))
            <= Worth(p, DebitOf(ch, r))
  {
    hide ToUnits, ToAlpha;
    AlphaAdd(0.0, 0.0, p);
    if r.status == Released {
      ReleaseCovered(ch, r, p);
    } else if r.status in {Approved, Default} {
      var q := PriceAt(ch, r.cp).value;
      UnitsOfAlpha(r.approved, q);
      AlphaMonotone(0.0, ToUnits(r.approved, q), p);
      if r.cp <= cp {
        EarlierIsCheaper(ch, r.cp, ch.blockAt(cp).value);
        DearerUnits(r.approved, q, p);
      }
    }
  }

  lemma EarlierIsCheaper(ch: Chain, t: int, b: int)
    requires PriceNeverFalls(ch) && ch.blockAt(t).Some? && t <= ch.blockTime(b)
    ensures ch.price(ch.blockAt(t).value).value <= ch.price(b).value
  {
  }

  lemma ReleaseCovered(ch: Chain, r: Request, p: Price)
    requires RequestSound(r, ch) && PriceNeverFalls(ch) && r.status == Released && r.releasedAlpha <= r.approved
    ensures Worth(p, ReleasedOf(ch, r)) <= Worth(p, DebitOf(ch, r))
  {
    var b := r.releasedBy.value.0;
    assert ch.price(b).Some?;
    var q, at := PriceAt(ch, r.cp).value, ch.price(b).value;
    EarlierIsCheaper(ch, r.cp, r.releasedBy.value.0);
    hide ToUnits, ToAlpha, PriceNeverFalls;
    UnitsMonotone(r.releasedAlpha, r.approved, at);
    DearerUnits(r.approved, q, at);
    AlphaMonotone(ToUnits(r.releasedAlpha, at), ToUnits(r.approved, q), p);
  }

  // ---------------------------------------------------------------- all requests

  lemma DebitsCover(ch: Chain, requests: map<ReqKey, Request>, cp: int, p: Price)
    requires RequestsSound(requests, ch) && PriceNeverFalls(ch) && PriceAt(ch, cp) == Some(p) && HonestReleases(requests)
    ensures PendingAlpha(requests, cp) + Worth(p, ReleasedShares(ch, requests)) <= Worth(p, Debits(ch, requests))
  {
    hide DebitOf, ReleasedOf, Worth, RequestSound, PriceNeverFalls;
    var pending, released, debit := PendingTerm(requests, cp), ReleasedTerm(ch, requests), DebitTerm(ch, requests);
    var releasedWorth, debitWorth := (k: ReqKey) => Worth(p, released(k)), (k: ReqKey) => Worth(p, debit(k));
    var both := (k: ReqKey) => pending(k) + releasedWorth(k);
    forall k | k in requests.Keys ensures both(k) <= debitWorth(k) {
      DebitCovers(ch, requests[k], cp, p);
    }
    SumAtMost(requests.Keys, both, debitWorth);
    SumPlus(requests.Keys, pending, releasedWorth, both);
    SumWorth(requests.Keys, released, p, releasedWorth);
    SumWorth(requests.Keys, debit, p, debitWorth);
  }

  lemma SumWorth<K(!new)>(keys: set<K>, f: K -> real, p: Price, g: K -> real)
    requires forall k :: k in keys ==> g(k) == Worth(p, f(k))
    ensures Sum(keys, g) == Worth(p, Sum(keys, f))
  {
    forall k | k in keys ensures g(k) == Scale(p, f(k)) {
      WorthIsScale(p, f(k));
    }
    WorthIsScale(p, Sum(keys, f));
    hide Worth, Scale;
    SumScaled(keys, f, p, g);
  }

  lemma WorthIsScale(p: Price, u: real)
    ensures Worth(p, u) == Scale(p, u)
  {
  }

  // ---------------------------------------------------------------- the check

  lemma TotalAtMost(l: Ledger, t: int)
    requires DebitsBy(l, t)
    ensures TotalAt(l, t) <= Total(l)
  {
    SumAtMost(l.Keys, TotalTerm(l, t), AllTerm(l));
  }

  /** A whole ledger, an honest custodian and a price that has not fallen: the vault is covered. */
  lemma StakeCoversLiabilities(db: Db, ch: Chain, cp: int, blk: int)
    requires Whole(db, ch, cp * US) && PriceNeverFalls(ch) && HonestReleases(db.requests)
    requires ch.blockAt(cp) == Some(blk) && StakeHeld(db, ch, blk)
    ensures Liabilities(db, cp, ch.price(blk)) <= ch.stake(blk)
  {
    hide ToAlpha, ToUnits, Total, TotalAt, Debits, Inflow, Arrived, PendingAlpha, ReleasedShares, NeverNegative,
         HonestReleases, RequestsSound, DebitsBy, DepositsExact, PriceNeverFalls;
    var p := ch.price(blk).value;
    DebitsCover(ch, db.requests, cp, p);
    TotalAtMost(db.ledger, cp * US);
    var out := ReleasedShares(ch, db.requests);
    AlphaMonotone(TotalAt(db.ledger, cp * US), Arrived(db.ledger, ch) - Debits(ch, db.requests), p);
    AlphaLess(Arrived(db.ledger, ch), Debits(ch, db.requests), p);
    AlphaLess(Arrived(db.ledger, ch), out, p);
  }

  lemma AlphaLess(u: real, v: real, p: Price)
    ensures ToAlpha(u - v, p) == ToAlpha(u, p) - ToAlpha(v, p)
  {
  }

  lemma CoveredIsNotShort(db: Db, ch: Chain, cp: int, blk: int)
    requires Liabilities(db, cp, ch.price(blk)) <= ch.stake(blk)
    ensures !CheckOf(db, ch, cp, blk).short
  {
  }

  /** The check of a checkpoint is what its own final tables say. */
  lemma CheckReads(db: Db, w: World, cp: int, blk: int)
    ensures var n := PhaseB(db, w, cp, blk);
            cp in n.checks && n.checks[cp] == CheckOf(n, w.ch, cp, blk)
  {
    hide Sweeps, Requests, Defaults, Claims;
    var db1 := Sweeps(db, w, cp, Claims(w.claims, {Sweep}, cp));
    var db2 := Requests(db1, w, cp, w.ch.price(blk), Claims(w.claims, {Withdraw, Exit}, cp));
    var db3 := db2.(requests := Defaults(db2.requests, cp));
    var n := PhaseB(db, w, cp, blk);
    assert n.ledger == db3.ledger && n.requests == db3.requests;
  }

  // ---------------------------------------------------------------- what the check compares

  ghost function HeldBy(l: Ledger, t: int): Entity -> real
  {
    (e: Entity) => UnitsAt(l, e, t)
  }

  function TermFor(l: Ledger, t: int, k: LKey): Entity -> real
  {
    (e: Entity) => UnitsTerm(l, e, t)(k)
  }

  ghost function HeldOver(l: Ledger, t: int, keys: set<LKey>): Entity -> real
  {
    (e: Entity) => Sum(keys, UnitsTerm(l, e, t))
  }

  /** A row is held by its own entity only. */
  lemma OneHolder(l: Ledger, t: int, k: LKey, es: set<Entity>)
    requires k in l && l[k].entity in es
    ensures Sum(es, TermFor(l, t, k)) == TotalTerm(l, t)(k)
  {
    var own := l[k].entity;
    assert TermFor(l, t, k)(own) == UnitsTerm(l, own, t)(k) == TotalTerm(l, t)(k);
    forall e | e in es - {own} ensures TermFor(l, t, k)(e) == 0.0 {
      assert TermFor(l, t, k)(e) == UnitsTerm(l, e, t)(k);
    }
    SumTake(es, TermFor(l, t, k), l[k].entity);
    SumZero(es - {l[k].entity}, TermFor(l, t, k));
  }

  lemma {:induction false} SumsSwap(l: Ledger, t: int, keys: set<LKey>, es: set<Entity>)
    requires keys <= l.Keys && forall k :: k in keys ==> l[k].entity in es
    ensures Sum(es, HeldOver(l, t, keys)) == Sum(keys, TotalTerm(l, t))
    decreases keys
  {
    if keys == {} {
      SumZero(es, HeldOver(l, t, keys));
    } else {
      var k :| k in keys;
      SumsSwap(l, t, keys - {k}, es);
      OneHolder(l, t, k, es);
      SumTake(keys, TotalTerm(l, t), k);
      forall e | e in es ensures HeldOver(l, t, keys)(e) == TermFor(l, t, k)(e) + HeldOver(l, t, keys - {k})(e) {
        SumTake(keys, UnitsTerm(l, e, t), k);
      }
      hide TermFor, HeldOver, TotalTerm;
      SumPlus(es, TermFor(l, t, k), HeldOver(l, t, keys - {k}), HeldOver(l, t, keys));
    }
  }

  /** The ledger's total is what the entities hold, the reserve included. */
  lemma TotalIsAllBalances(l: Ledger, t: int, es: set<Entity>)
    requires forall k :: k in l ==> l[k].entity in es
    ensures TotalAt(l, t) == Sum(es, HeldBy(l, t))
  {
    SumsSwap(l, t, l.Keys, es);
    SumCongruent(es, HeldOver(l, t, l.Keys), HeldBy(l, t));
  }

  /** What was approved by the checkpoint and has no release, in default or not. */
  function Awaiting(requests: map<ReqKey, Request>, cp: int): ReqKey -> real
  {
    (k: ReqKey) => if k in requests && (requests[k].status == Approved || requests[k].status == Default) && requests[k].cp <= cp
                   then requests[k].approved else 0.0
  }

  lemma AwaitingIsPending(requests: map<ReqKey, Request>, cp: int)
    ensures Sum(requests.Keys, Awaiting(requests, cp)) == PendingAlpha(requests, cp)
  {
    SumCongruent(requests.Keys, Awaiting(requests, cp), PendingTerm(requests, cp));
  }

  /** A checkpoint is marked short exactly when the stake is below what every entity and the reserve hold, at the
      price, plus the approved amounts not yet released, by more than the tolerance. */
  lemma ShortIffUncovered(db: Db, w: World, cp: int, blk: int, es: set<Entity>)
    requires w.ch.price(blk).Some? && forall k :: k in PhaseB(db, w, cp, blk).ledger ==> PhaseB(db, w, cp, blk).ledger[k].entity in es
    ensures var n := PhaseB(db, w, cp, blk);
            && cp in n.checks
            && (n.checks[cp].short <==>
                  w.ch.stake(blk) + 0.001 < ToAlpha(Sum(es, HeldBy(n.ledger, cp * US)), w.ch.price(blk).value) + Sum(n.requests.Keys, Awaiting(n.requests, cp)))
  {
    AwaitingIsPending(PhaseB(db, w, cp, blk).requests, cp);
    hide PhaseB, ToAlpha, PendingAlpha, HeldBy, TotalAt, Awaiting;
    CheckReads(db, w, cp, blk);
    TotalIsAllBalances(PhaseB(db, w, cp, blk).ledger, cp * US, es);
  }

  lemma ChecksAfter(s: Setup, st: State, step: Step)
    requires Enabled(s, st, step)
    ensures var n := Do(s, st, step);
            if step == DoPhaseB then
              n.db.checks.Keys == st.db.checks.Keys + {Next(st.db, s.first)}
              && (forall c :: c in st.db.checks && c != Next(st.db, s.first) ==> n.db.checks[c] == st.db.checks[c])
            else n.db.checks == st.db.checks
  {
    hide PhaseA, PhaseB, Settle, MaxOr;
    var cp := Next(st.db, s.first);
    match step
    case DoPhaseA => PhaseAFrame(st.db, s.w, cp);
    case DoPhaseB => PhaseBFrame(st.db, s.w, cp, s.w.ch.blockAt(cp).value);
    case DoSettle =>
      var n := st.settled;
      SettleFrame(st.db, s.w.ch, n, CloseOf(s, n), s.owed(n), s.nets(n));
    case Decide(b) =>
  }
}
