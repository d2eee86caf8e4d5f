/**
 The ledger is a function of the claims, the chain and the settlement rows (markets_vault.py:51-54, 211-219,
 336-362): the order claims are stored in and the way calls are split do not matter.
 */
module VaultReplay {
  import opened Wrappers
  import opened Sorting
  import opened Vault
  import opened VaultLaws
  import opened VaultBalances
  import opened VaultRun
  import opened VaultSafety
  import opened VaultSchedule

  // ---------------------------------------------------------------- the order of the claims table

  lemma {:induction false} FilterCounts<T(!new)>(keep: T -> bool, s: seq<T>, x: T)
    ensures multiset(Filter(keep, s))[x] == if keep(x) then multiset(s)[x] else 0
    decreases |s|
  {
    if s != [] {
      FilterCounts(keep, s[..|s| - 1], x);
      assert s == s[..|s| - 1] + [s[|s| - 1]];
    }
  }

  lemma ClaimOrder()
    ensures TotalPreorder(ClaimLeq)
    ensures forall x, y :: ClaimLeq(x, y) && ClaimLeq(y, x) ==> x.key == y.key
  {
  }

  /** Claims stored in any order are applied in the same order. */
  lemma ClaimsAreCanonical(xs: seq<Claim>, ys: seq<Claim>, kinds: set<Kind>, cp: int)
    requires multiset(xs) == multiset(ys) && Keyed(xs)
    ensures Claims(xs, kinds, cp) == Claims(ys, kinds, cp)
  {
    var keep := OfKinds(kinds, cp);
    var f, g := Filter(keep, xs), Filter(keep, ys);
    forall x ensures multiset(f)[x] == multiset(g)[x] {
      FilterCounts(keep, xs, x);
      FilterCounts(keep, ys, x);
    }
    assert multiset(f) == multiset(g);
    FilterElements(keep, xs);
    ClaimOrder();
    forall x, y | x in multiset(f) && y in multiset(f) && ClaimLeq(x, y) && ClaimLeq(y, x) ensures x == y {
      assert x in f && y in f;
      SameKey(xs, x, y);
    }
    SortIsCanonical(ClaimLeq, f, g);
  }

  function WithClaims(s: Setup, claims: seq<Claim>): Setup
  {
    s.(w := s.w.(claims := claims))
  }

  lemma PhaseAIgnoresOrder(db: Db, w: World, v: World, cp: int)
    requires multiset(w.claims) == multiset(v.claims) && Keyed(w.claims) && w.ch == v.ch && w.market == v.market
    ensures PhaseA(db, w, cp) == PhaseA(db, v, cp)
  {
    ClaimsAreCanonical(w.claims, v.claims, {Deposit}, cp);
    ClaimsAreCanonical(w.claims, v.claims, {Release}, cp);
  }

  lemma {:induction false} SweepsIgnoreOrder(db: Db, w: World, v: World, cp: int, cs: seq<Claim>)
    requires w.ch == v.ch && w.market == v.market
    ensures Sweeps(db, w, cp, cs) == Sweeps(db, v, cp, cs)
    decreases |cs|
  {
    if cs != [] {
      hide SweepOne;
      SweepsIgnoreOrder(db, w, v, cp, cs[..|cs| - 1]);
      SweepIgnoresOrder(Sweeps(db, w, cp, cs[..|cs| - 1]).ledger, w, v, cp, cs[|cs| - 1]);
    }
  }

  lemma SweepIgnoresOrder(l: Ledger, w: World, v: World, cp: int, c: Claim)
    requires w.ch == v.ch && w.market == v.market
    ensures SweepOne(l, w, cp, c) == SweepOne(l, v, cp, c)
  {
    hide RefUsed, Timely, Outstanding, SweepScale, CreditAll, PartsOf, HotkeysInOrder, ToUnits;
  }

  lemma {:induction false} RequestsIgnoreOrder(db: Db, w: World, v: World, cp: int, price: Option<Price>, cs: seq<Claim>)
    requires w.ch == v.ch && w.market == v.market
    ensures Requests(db, w, cp, price, cs) == Requests(db, v, cp, price, cs)
    decreases |cs|
  {
    if cs != [] {
      hide RequestOne;
      RequestsIgnoreOrder(db, w, v, cp, price, cs[..|cs| - 1]);
      RequestIgnoresOrder(Requests(db, w, cp, price, cs[..|cs| - 1]), w, v, cp, price, cs[|cs| - 1]);
    }
  }

  lemma RequestIgnoresOrder(db: Db, w: World, v: World, cp: int, price: Option<Price>, c: Claim)
    requires w.ch == v.ch && w.market == v.market
    ensures RequestOne(db, w, cp, price, c) == RequestOne(db, v, cp, price, c)
  {
    hide RoomOf, ApprovedFor, ToUnits, Post;
  }

  lemma PhaseBIgnoresOrder(db: Db, w: World, v: World, cp: int, blk: int)
    requires multiset(w.claims) == multiset(v.claims) && Keyed(w.claims) && w.ch == v.ch && w.market == v.market
    ensures PhaseB(db, w, cp, blk) == PhaseB(db, v, cp, blk)
  {
    ClaimsAreCanonical(w.claims, v.claims, {Sweep}, cp);
    ClaimsAreCanonical(w.claims, v.claims, {Withdraw, Exit}, cp);
    hide Sweeps, Requests, Claims, CheckOf, Defaults;
    var xs := Claims(w.claims, {Sweep}, cp);
    SweepsIgnoreOrder(db, w, v, cp, xs);
    RequestsIgnoreOrder(Sweeps(db, w, cp, xs), w, v, cp, w.ch.price(blk), Claims(w.claims, {Withdraw, Exit}, cp));
  }

  lemma StepIgnoresOrder(s: Setup, claims: seq<Claim>, st: State, step: Step)
    requires Keyed(s.w.claims) && multiset(s.w.claims) == multiset(claims)
    ensures Enabled(s, st, step) <==> Enabled(WithClaims(s, claims), st, step)
    ensures Enabled(s, st, step) ==> Do(s, st, step) == Do(WithClaims(s, claims), st, step)
  {
    hide PhaseA, PhaseB, Settle, Next;
    var cp := Next(st.db, s.first);
    var v := WithClaims(s, claims).w;
    PhaseAIgnoresOrder(st.db, s.w, v, cp);
    if s.w.ch.blockAt(cp).Some? {
      PhaseBIgnoresOrder(st.db, s.w, v, cp, s.w.ch.blockAt(cp).value);
    }
  }

  /** Every run is the same run whatever order the claims were ingested in. */
  lemma {:induction false} RunIgnoresIngestionOrder(s: Setup, claims: seq<Claim>, steps: seq<Step>, st: State)
    requires Keyed(s.w.claims) && multiset(s.w.claims) == multiset(claims) && Leads(s, steps, st)
    ensures Leads(WithClaims(s, claims), steps, st)
    decreases |steps|
  {
    hide Enabled, Do;
    if steps != [] {
      var front, last := steps[..|steps| - 1], steps[|steps| - 1];
      var before :| Leads(s, front, before) && Enabled(s, before, last) && Do(s, before, last) == st;
      RunIgnoresIngestionOrder(s, claims, front, before);
      StepIgnoresOrder(s, claims, before, last);
    } else {
      StartIgnoresClaims(s, claims);
    }
  }

  lemma StartIgnoresClaims(s: Setup, claims: seq<Claim>)
    ensures Start(WithClaims(s, claims)) == Start(s)
  {
  }

  // ---------------------------------------------------------------- splitting calls

  /** One call of the pass: checkpoint after checkpoint, while the market is ready for it. */
  ghost function Pass(s: Setup, st: State, upto: int): State
    decreases upto - Next(st.db, s.first) + STEP_S
  {
    var cp := Next(st.db, s.first);
    if upto < cp || s.w.ch.blockAt(cp).None? then st
    else
      var st1 := if cp in st.db.credit then st else st.(db := PhaseA(st.db, s.w, cp).(credit := st.db.credit + {cp}));
      if !PhaseBReady(s, st1, cp) then st1
      else
        var blk := s.w.ch.blockAt(cp).value;
        var st2 := st1.(db := PhaseB(st1.db, s.w, cp, blk));
        PassAdvances(s, st, cp, blk);
        Pass(s, st2, upto)
  }

  lemma PassAdvances(s: Setup, st: State, cp: int, blk: int)
    requires cp == Next(st.db, s.first)
    ensures var db1 := if cp in st.db.credit then st.db else PhaseA(st.db, s.w, cp).(credit := st.db.credit + {cp});
            Next(db1, s.first) == cp && Next(PhaseB(db1, s.w, cp, blk), s.first) == cp + STEP_S
  {
    hide PhaseA, PhaseB, MaxOr;
    var db1 := if cp in st.db.credit then st.db else PhaseA(st.db, s.w, cp).(credit := st.db.credit + {cp});
    PhaseAFrame(st.db, s.w, cp);
    assert Next(db1, s.first) == cp;
    PhaseBFrame(db1, s.w, cp, blk);
    NextAfterCheck(db1, PhaseB(db1, s.w, cp, blk), s.first);
  }

  /** A pass up to one time and then to a later one is the pass to the later one. */
  lemma {:induction false} PassesCompose(s: Setup, st: State, mid: int, upto: int)
    requires mid <= upto
    ensures Pass(s, Pass(s, st, mid), upto) == Pass(s, st, upto)
    decreases mid - Next(st.db, s.first) + STEP_S
  {
    hide PhaseA, PhaseB, PhaseBReady, Next;
    var cp := Next(st.db, s.first);
    if !(mid < cp || s.w.ch.blockAt(cp).None?) {
      var blk := s.w.ch.blockAt(cp).value;
      PassAdvances(s, st, cp, blk);
      var st1 := if cp in st.db.credit then st else st.(db := PhaseA(st.db, s.w, cp).(credit := st.db.credit + {cp}));
      PhaseACredits(s, st, cp);
      if PhaseBReady(s, st1, cp) {
        PassesCompose(s, st1.(db := PhaseB(st1.db, s.w, cp, blk)), mid, upto);
      }
    }
  }

  lemma PhaseACredits(s: Setup, st: State, cp: int)
    ensures cp in PhaseA(st.db, s.w, cp).(credit := st.db.credit + {cp}).credit
  {
  }

  /** A pass is a run of phases: each taken when it is enabled. */
  lemma {:induction false} PassIsARun(s: Setup, steps: seq<Step>, st: State, upto: int)
    requires Leads(s, steps, st)
    ensures exists more :: Leads(s, more, Pass(s, st, upto))
    decreases upto - Next(st.db, s.first) + STEP_S
  {
    hide PhaseA, PhaseB, PhaseBReady, Next, Leads;
    var cp := Next(st.db, s.first);
    if !(upto < cp || s.w.ch.blockAt(cp).None?) {
      var blk := s.w.ch.blockAt(cp).value;
      PassAdvances(s, st, cp, blk);
      var st1 := if cp in st.db.credit then st else Do(s, st, DoPhaseA);
      var steps1 := if cp in st.db.credit then steps else steps + [DoPhaseA];
      if cp !in st.db.credit {
        OneMore(s, steps, st, DoPhaseA);
      }
      if PhaseBReady(s, st1, cp) {
        OneMore(s, steps1, st1, DoPhaseB);
        assert Pass(s, st, upto) == Pass(s, Do(s, st1, DoPhaseB), upto);
        PassIsARun(s, steps1 + [DoPhaseB], Do(s, st1, DoPhaseB), upto);
      } else {
        assert Leads(s, steps1, Pass(s, st, upto));
      }
    } else {
      assert Leads(s, steps, Pass(s, st, upto));
    }
  }

  lemma OneMore(s: Setup, steps: seq<Step>, st: State, step: Step)
    requires Leads(s, steps, st) && Enabled(s, st, step)
    ensures Leads(s, steps + [step], Do(s, st, step))
  {
    hide Enabled, Do;
    assert (steps + [step])[..|steps|] == steps;
  }
}
