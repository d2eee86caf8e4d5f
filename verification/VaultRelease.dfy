/**
 Solvency and the timing of release claims (markets_vault.py:364-467): phase A drops a release claim whose request is
 not open yet. A custodian that pays approved requests only is never found short if its claims come after the first
 checkpoint at which the request must be open, and no looser rule will do.
 */
module VaultRelease {
  import opened Wrappers
  import opened Sums
  import opened Sorting
  import opened Vault
  import opened VaultLaws
  import opened VaultBalances
  import opened VaultRun
  import opened VaultSafety
  import opened VaultSchedule
  import opened VaultSolvency
  import opened VaultCustody

  /** The rule lets no claim come before the first checkpoint at or after the request's due time has passed. */
  ghost predicate WaitsForCheckpoint(rule: Rule)
  {
    forall due, t :: due * US <= t && rule(due, t) ==> GridCeil(due) * US < t
  }

  // ---------------------------------------------------------------- requests of claims already applied

  lemma GridCeilOnGrid(t: int)
    ensures GridCeil(t) % STEP_S == 0
  {
    assert GridCeil(t) == -(-t / STEP_S) * STEP_S;
  }

  /** A filed claim that has been credited is for a request due before the next checkpoint. */
  lemma FiledIsDueBefore(s: Setup, cu: Custodian, rule: Rule, st: State, x: Extrinsic, c: Claim)
    requires WaitsForCheckpoint(rule) && Safe(s, st) && Filed(s, cu, rule, c, x) && c.tRecv <= CreditedThrough(s, st) * US
    ensures GridCeil(DueAt(s, cu.pays(x))) <= Next(st.db, s.first) - STEP_S
    ensures DueAt(s, cu.pays(x)) <= Next(st.db, s.first) - STEP_S
  {
    hide Whole, KeysFrom, DebitsBy, DueAt, Next;
    var due, cp := DueAt(s, cu.pays(x)), Next(st.db, s.first);
    assert due * US <= c.tRecv;
    assert GridCeil(due) * US < c.tRecv;
    GridCeilOnGrid(due);
    GridCeilIsLeast(due, cp - STEP_S);
    assert GridCeil(due) < cp;
  }

  /** A step opens requests that are due no earlier than the next checkpoint, or at the first one before its span. */
  lemma OpensLate(s: Setup, st: State, step: Step, k: ReqKey)
    requires WellSet(s) && OwnKeys(s) && Safe(s, st) && Enabled(s, st, step)
    requires k in Do(s, st, step).db.requests && k !in st.db.requests
    ensures var n, cp := Do(s, st, step), Next(st.db, s.first);
            && n.db.requests[k].cp == DueAt(s, k)
            && (cp - STEP_S < DueAt(s, k) || (cp == s.first && Next(n.db, s.first) == cp))
  {
    hide Whole, KeysFrom, DebitsBy, Calendar, PhaseA, PhaseB, Settle, Next, Keyed, OwnKeys, DueAt, SettledThrough,
         CheckpointsDoneBefore, CloseOf;
    var cp := Next(st.db, s.first);
    CheckpointAdvances(s, st, step);
    match step
    case DoPhaseA => PhaseAKeepsAmounts(st.db, s.w, cp);
    case DoPhaseB =>
      OnItsGrid(s, st);
      PhaseBOpens(s, st.db, cp, s.w.ch.blockAt(cp).value);
    case DoSettle => SettleOpens(s, st.db, st.settled);
    case Decide(b) =>
  }

  /** No step changes what was approved. */
  lemma AmountsStay(s: Setup, st: State, step: Step, k: ReqKey)
    requires WellSet(s) && OwnKeys(s) && Safe(s, st) && Enabled(s, st, step) && k in st.db.requests
    ensures k in Do(s, st, step).db.requests && Do(s, st, step).db.requests[k].approved == st.db.requests[k].approved
  {
    hide Whole, KeysFrom, DebitsBy, Calendar, PhaseA, PhaseB, Settle, Next, Keyed, OwnKeys, DueAt, SettledThrough,
         CheckpointsDoneBefore, CloseOf;
    var cp := Next(st.db, s.first);
    match step
    case DoPhaseA => PhaseAKeepsAmounts(st.db, s.w, cp);
    case DoPhaseB =>
      OnItsGrid(s, st);
      PhaseBOpens(s, st.db, cp, s.w.ch.blockAt(cp).value);
    case DoSettle => SettleOpens(s, st.db, st.settled);
    case Decide(b) =>
  }

  /** If what is claimed is open and approved after a step, it was before. */
  lemma PaidBefore(s: Setup, cu: Custodian, rule: Rule, st: State, step: Step)
    requires Honest(s, cu, rule) && WaitsForCheckpoint(rule) && Safe(s, st) && Enabled(s, st, step)
    requires NothingOlder(s, Do(s, st, step)) && PaysApproved(s, cu, rule, Do(s, st, step))
    ensures PaysApproved(s, cu, rule, st)
  {
    hide Safe, WellSet, Enabled, Do, Filed, Next, CreditedThrough, DueAt, WaitsForCheckpoint, Files;
    var n := Do(s, st, step);
    CreditedGrows(s, st, step);
    CheckpointAdvances(s, st, step);
    forall x, c | x in cu.outs && Filed(s, cu, rule, c, x) && c.tRecv <= CreditedThrough(s, st) * US
      ensures OpenFor(s.w.ch, cu, st.db.requests, x)
    {
      var k := cu.pays(x);
      assert c.tRecv <= CreditedThrough(s, n) * US;
      assert OpenFor(s.w.ch, cu, n.db.requests, x);
      FiledIsDueBefore(s, cu, rule, st, x, c);
      if k !in st.db.requests {
        OpensLate(s, st, step, k);
      }
      AmountsStay(s, st, step, k);
    }
  }

  // ---------------------------------------------------------------- a claimed transfer releases its request

  ghost predicate IsFreed(cu: Custodian, requests: map<ReqKey, Request>, x: Extrinsic)
  {
    cu.pays(x) in requests && requests[cu.pays(x)].status == Released && requests[cu.pays(x)].releasedBy == Some(x)
  }

  /** Every transfer claimed by `t` has released the request it pays. */
  ghost predicate AllFreed(s: Setup, cu: Custodian, rule: Rule, requests: map<ReqKey, Request>, t: int)
  {
    forall x, c :: x in cu.outs && Filed(s, cu, rule, c, x) && c.tRecv <= t * US ==> IsFreed(cu, requests, x)
  }

  /** A filed claim releases the request its transfer pays, or that has been done. */
  lemma ClaimFrees(s: Setup, cu: Custodian, rule: Rule, db: Db, c: Claim, x: Extrinsic, t: int)
    requires Moves(s.w.ch, cu) && Files(s, cu, rule) && Filed(s, cu, rule, c, x) && x in cu.outs
    requires RequestsAs(s, cu, db.requests, t) && RequestsSound(db.requests, s.w.ch) && OpenFor(s.w.ch, cu, db.requests, x)
    ensures IsFreed(cu, ReleaseOne(db, s.w.ch, c).requests, x)
  {
    hide DueAt, SharesHeld, FiledBy, PriceAt;
    var k := cu.pays(x);
    var r := db.requests[k];
    assert RequestAs(s, cu, k, r, t) && RequestSound(r, s.w.ch);
    assert r.approved > 0.0;
    forall j | j in db.requests && db.requests[j].releasedBy == Some(x) ensures j == k {
      assert RequestAs(s, cu, j, db.requests[j], t);
    }
    if r.status != Released {
      assert !ReleasedWith(db.requests, x);
    }
  }

  lemma FreedStays(db: Db, ch: Chain, cu: Custodian, c: Claim, x: Extrinsic)
    requires IsFreed(cu, db.requests, x)
    ensures IsFreed(cu, ReleaseOne(db, ch, c).requests, x)
  {
    hide ReleasedWith;
  }

  lemma {:induction false} FreedStaysAll(db: Db, ch: Chain, cu: Custodian, cs: seq<Claim>, x: Extrinsic)
    requires IsFreed(cu, db.requests, x)
    ensures IsFreed(cu, Releases(db, ch, cs).requests, x)
    decreases |cs|
  {
    hide ReleaseOne, IsFreed;
    if cs != [] {
      FreedStaysAll(db, ch, cu, cs[..|cs| - 1], x);
      FreedStays(Releases(db, ch, cs[..|cs| - 1]), ch, cu, cs[|cs| - 1], x);
    }
  }

  lemma {:induction false} ReleasesSound(db: Db, ch: Chain, cs: seq<Claim>)
    requires RequestsSound(db.requests, ch)
    ensures RequestsSound(Releases(db, ch, cs).requests, ch)
    decreases |cs|
  {
    hide ReleaseOne, RequestsSound;
    if cs != [] {
      ReleasesSound(db, ch, cs[..|cs| - 1]);
      ReleaseKeepsRequests(Releases(db, ch, cs[..|cs| - 1]), ch, cs[|cs| - 1]);
    }
  }

  lemma {:induction false} ReleasesFree(s: Setup, cu: Custodian, rule: Rule, db: Db, cs: seq<Claim>, cp: int, c: Claim, x: Extrinsic)
    requires Moves(s.w.ch, cu) && Files(s, cu, rule) && Filed(s, cu, rule, c, x) && x in cu.outs && c in cs
    requires forall d :: d in cs ==> d in s.w.claims && d.kind == Release && InSpan(d, cp)
    requires RequestsAs(s, cu, db.requests, cp) && RequestsSound(db.requests, s.w.ch) && OpenFor(s.w.ch, cu, db.requests, x)
    ensures IsFreed(cu, Releases(db, s.w.ch, cs).requests, x)
    decreases |cs|
  {
    hide ReleaseOne, RequestsSound, RequestsAs, IsFreed, Moves, Files, Filed, InSpan;
    var front, last := cs[..|cs| - 1], cs[|cs| - 1];
    var m := Releases(db, s.w.ch, front);
    if c in front {
      ReleasesFree(s, cu, rule, db, front, cp, c, x);
      FreedStays(m, s.w.ch, cu, last, x);
    } else {
      assert last == c;
      ReleasesSound(db, s.w.ch, front);
      ReleasesAs(s, cu, rule, db, front, cp);
      ReleasesKeepAmounts(db, s.w.ch, front);
      ClaimFrees(s, cu, rule, m, c, x, cp);
    }
  }

  lemma InItsSpan(claims: seq<Claim>, c: Claim, kinds: set<Kind>, cp: int)
    requires c in claims && c.kind in kinds && InSpan(c, cp)
    ensures c in Claims(claims, kinds, cp)
  {
    FilterElements(OfKinds(kinds, cp), claims);
    SortElements(ClaimLeq, Filter(OfKinds(kinds, cp), claims));
  }

  lemma PhaseAFrees(s: Setup, cu: Custodian, rule: Rule, db: Db, cp: int)
    requires Honest(s, cu, rule) && RequestsAs(s, cu, db.requests, cp) && RequestsSound(db.requests, s.w.ch)
    requires AllFreed(s, cu, rule, db.requests, cp - STEP_S)
    requires forall x, c :: x in cu.outs && Filed(s, cu, rule, c, x) && c.tRecv <= cp * US ==> OpenFor(s.w.ch, cu, PhaseA(db, s.w, cp).requests, x)
    ensures AllFreed(s, cu, rule, PhaseA(db, s.w, cp).requests, cp)
  {
    hide RequestsSound, RequestsAs, IsFreed, Moves, Files, Filed, Claims, Releases, Deposits, Calendar, Keyed, OwnKeys;
    var cs, rs := Claims(s.w.claims, {Deposit}, cp), Claims(s.w.claims, {Release}, cp);
    var d := Deposits(db, s.w.ch, cs);
    DepositsFrame(db, s.w.ch, cs);
    ClaimsOfSpan(s.w.claims, {Release}, cp);
    PhaseAKeepsAmounts(db, s.w, cp);
    forall x, c | x in cu.outs && Filed(s, cu, rule, c, x) && c.tRecv <= cp * US ensures IsFreed(cu, Releases(d, s.w.ch, rs).requests, x) {
      if c.tRecv <= (cp - STEP_S) * US {
        assert IsFreed(cu, db.requests, x);
        SameFreed(cu, db.requests, d.requests, x);
        FreedStaysAll(d, s.w.ch, cu, rs, x);
      } else {
        assert OpenFor(s.w.ch, cu, PhaseA(db, s.w, cp).requests, x);
        FiledIsRelease(s, cu, rule, c, x);
        InItsSpan(s.w.claims, c, {Release}, cp);
        ReleasesFree(s, cu, rule, d, rs, cp, c, x);
      }
    }
  }

  lemma SameFreed(cu: Custodian, a: map<ReqKey, Request>, b: map<ReqKey, Request>, x: Extrinsic)
    requires IsFreed(cu, a, x) && a == b
    ensures IsFreed(cu, b, x)
  {
  }

  lemma FiledIsRelease(s: Setup, cu: Custodian, rule: Rule, c: Claim, x: Extrinsic)
    requires Filed(s, cu, rule, c, x)
    ensures c in s.w.claims && c.kind == Release
  {
  }

  lemma OpensKeepFreed(s: Setup, cu: Custodian, rule: Rule, before: map<ReqKey, Request>, after: map<ReqKey, Request>, at: int, t: int)
    requires AllFreed(s, cu, rule, before, t) && OpensAs(s, before, after, at)
    ensures AllFreed(s, cu, rule, after, t)
  {
    hide DueAt, Filed;
    forall x | IsFreed(cu, before, x) ensures IsFreed(cu, after, x) {
      assert Same(before[cu.pays(x)], after[cu.pays(x)]);
    }
  }

  lemma StepFrees(s: Setup, cu: Custodian, rule: Rule, st: State, step: Step)
    requires Honest(s, cu, rule) && Safe(s, st) && Dated(s, cu, st) && Enabled(s, st, step)
    requires AllFreed(s, cu, rule, st.db.requests, CreditedThrough(s, st)) && PaysApproved(s, cu, rule, Do(s, st, step))
    ensures AllFreed(s, cu, rule, Do(s, st, step).db.requests, CreditedThrough(s, Do(s, st, step)))
  {
    hide AtCursor, KeysFrom, Balanced, CreditsArrived, NeverNegative, DebitsBy, Calendar, PhaseA, PhaseB, Settle,
         Next, SettledThrough,
         CheckpointsDoneBefore, InflowBy, RequestsAs, RequestsSound, CreditedThrough, OwnKeys, Moves, Files, Filed,
         Keyed, Received, AllFreed, OpensAs, CloseOf;
    CreditedGrows(s, st, step);
    var cp, t, n := Next(st.db, s.first), CreditedThrough(s, st), Do(s, st, step);
    match step
    case DoPhaseA =>
      RequestsAsLater(s, cu, st.db.requests, t, cp);
      PhaseAFrees(s, cu, rule, st.db, cp);
    case DoPhaseB =>
      OnItsGrid(s, st);
      PhaseBOpens(s, st.db, cp, s.w.ch.blockAt(cp).value);
      OpensKeepFreed(s, cu, rule, st.db.requests, n.db.requests, cp, t);
    case DoSettle =>
      SettleOpens(s, st.db, st.settled);
      OpensKeepFreed(s, cu, rule, st.db.requests, n.db.requests, CloseOf(s, st.settled), t);
    case Decide(b) =>
  }

  /** On every run, each transfer claimed so far has released the request it pays. */
  lemma {:induction false} RunFrees(s: Setup, cu: Custodian, rule: Rule, steps: seq<Step>, st: State)
    requires Honest(s, cu, rule) && WaitsForCheckpoint(rule) && Leads(s, steps, st) && PaysApproved(s, cu, rule, st)
    ensures AllFreed(s, cu, rule, st.db.requests, CreditedThrough(s, st))
    decreases |steps|
  {
    hide Enabled, Do, Safe, WellSet, OwnKeys, Moves, Files, Filed, Dated, PaysApproved, AllFreed, WaitsForCheckpoint,
         NothingOlder;
    if steps == [] {
      StartIsFreed(s, cu, rule, st);
    } else {
      var front, last := steps[..|steps| - 1], steps[|steps| - 1];
      var before :| Leads(s, front, before) && Enabled(s, before, last) && Do(s, before, last) == st;
      ReachableIsSafe(s, front, before);
      RunHasNothingOlder(s, steps, st);
      PaidBefore(s, cu, rule, before, last);
      RunFrees(s, cu, rule, front, before);
      RunIsDated(s, cu, rule, front, before);
      StepFrees(s, cu, rule, before, last);
    }
  }

  lemma StartIsFreed(s: Setup, cu: Custodian, rule: Rule, st: State)
    requires st == Start(s) && PaysApproved(s, cu, rule, st)
    ensures AllFreed(s, cu, rule, st.db.requests, CreditedThrough(s, st))
  {
    hide Filed, CreditedThrough;
    forall x ensures !OpenFor(s.w.ch, cu, st.db.requests, x) {
    }
    hide OpenFor;
  }

  // ---------------------------------------------------------------- the check of a checkpoint

  lemma SumSubset<K(!new)>(some: set<K>, all: set<K>, f: K -> real)
    requires some <= all && forall k :: k in all ==> f(k) >= 0.0
    ensures Sum(some, f) <= Sum(all, f)
  {
    SumSplit(all, some, f);
    SumNonNegative(all - some, f);
  }

  /** An extrinsic of a block by `t` is of a block by the checkpoint's. */
  lemma BlocksInOrder(ch: Chain, cu: Custodian, b: int, cp: int, blk: int)
    requires Moves(ch, cu) && PriceNeverFalls(ch) && ch.blockAt(cp) == Some(blk) && ch.blockTime(b) <= cp
    ensures b <= blk
  {
    hide SharesHeld;
  }

  lemma SharesOfLess(ch: Chain, b: int, x: real, y: real)
    requires x <= y
    ensures SharesAt(ch, b, x) <= SharesAt(ch, b, y)
    ensures x >= 0.0 ==> SharesAt(ch, b, x) >= 0.0
  {
    if ch.price(b).Some? {
      UnitsMonotone(x, y, ch.price(b).value);
      UnitsOfAlpha(x, ch.price(b).value);
    }
  }

  lemma SharesAdd(ch: Chain, b: int, x: real, y: real)
    ensures SharesAt(ch, b, x + y) == SharesAt(ch, b, x) + SharesAt(ch, b, y)
  {
  }

  /** The shares an extrinsic swept in, and what is left of what it brought for a deposit. */
  function SweptPart(ch: Chain): Extrinsic -> real
  {
    (x: Extrinsic) => SharesAt(ch, x.0, Max(0.0, ch.sweepAlpha(x)))
  }

  function DepositPart(ch: Chain, cu: Custodian): Extrinsic -> real
  {
    (x: Extrinsic) => SharesAt(ch, x.0, cu.arrives(x) - Max(0.0, ch.sweepAlpha(x)))
  }

  lemma PartsAddUp(ch: Chain, cu: Custodian, xs: set<Extrinsic>)
    ensures Sum(xs, SharesIn(ch, cu)) == Sum(xs, DepositPart(ch, cu)) + Sum(xs, SweptPart(ch))
  {
    hide SharesAt;
    forall x | x in xs ensures SharesIn(ch, cu)(x) == DepositPart(ch, cu)(x) + SweptPart(ch)(x) {
      SharesAdd(ch, x.0, cu.arrives(x) - Max(0.0, ch.sweepAlpha(x)), Max(0.0, ch.sweepAlpha(x)));
    }
    SumPlus(xs, DepositPart(ch, cu), SweptPart(ch), SharesIn(ch, cu));
  }

  lemma PartsNonNegative(ch: Chain, cu: Custodian, x: Extrinsic)
    requires Moves(ch, cu) && x in cu.ins
    ensures DepositPart(ch, cu)(x) >= 0.0 && SweptPart(ch)(x) >= 0.0
  {
    hide SharesAt, SharesHeld;
    assert Max(0.0, ch.depositAlpha(x, 0)) + Max(0.0, ch.sweepAlpha(x)) <= Brought(cu, x);
    SharesOfLess(ch, x.0, 0.0, cu.arrives(x) - Max(0.0, ch.sweepAlpha(x)));
    SharesOfLess(ch, x.0, cu.arrives(x) - Max(0.0, ch.sweepAlpha(x)), cu.arrives(x) - Max(0.0, ch.sweepAlpha(x)));
    SharesOfLess(ch, x.0, Max(0.0, ch.sweepAlpha(x)), Max(0.0, ch.sweepAlpha(x)));
  }

  function DepositKeys(l: Ledger): set<LKey>
  {
    set k | k in l && l[k].kind == DepositRow
  }

  function RefOf(l: Ledger): LKey -> Extrinsic
  {
    (k: LKey) => if k in l then l[k].ref else (0, 0)
  }

  /** A deposit row's extrinsic brought at least what the row credits, besides what it swept. */
  lemma DepositFits(l: Ledger, ch: Chain, cu: Custodian, k: LKey, cp: int, blk: int)
    requires Moves(ch, cu) && PriceNeverFalls(ch) && ch.blockAt(cp) == Some(blk) && InflowBy(l, ch, cp) && DepositsExact(l, ch)
    requires k in DepositKeys(l)
    ensures l[k].ref in UpTo(cu.ins, blk) && DepositTerm(ch, l)(k) <= DepositPart(ch, cu)(l[k].ref)
  {
    hide SharesHeld, PriceNeverFalls, ToUnits;
    var r := l[k];
    assert DepositExact(r, ch);
    var got := ch.depositAlpha(r.ref, r.entity.n);
    assert Max(0.0, got) + Max(0.0, ch.sweepAlpha(r.ref)) <= Brought(cu, r.ref);
    BlocksInOrder(ch, cu, r.ref.0, cp, blk);
    SharesOfLess(ch, r.ref.0, got, cu.arrives(r.ref) - Max(0.0, ch.sweepAlpha(r.ref)));
  }

  lemma DepositsWithin(l: Ledger, ch: Chain, cu: Custodian, cp: int, blk: int)
    requires Moves(ch, cu) && PriceNeverFalls(ch) && ch.blockAt(cp) == Some(blk) && InflowBy(l, ch, cp) && DepositsExact(l, ch)
    ensures DepositedShares(l, ch) <= Sum(UpTo(cu.ins, blk), DepositPart(ch, cu))
  {
    hide Moves, PriceNeverFalls, InflowBy, DepositShares, DepositPart, DepositExact;
    var ks, refs := DepositKeys(l), Image(DepositKeys(l), RefOf(l));
    SumOverSupport(ks, l.Keys, DepositTerm(ch, l));
    forall k | k in ks ensures RefOf(l)(k) in UpTo(cu.ins, blk) && DepositTerm(ch, l)(k) <= DepositPart(ch, cu)(RefOf(l)(k)) {
      DepositFits(l, ch, cu, k, cp, blk);
    }
    SumInto(ks, DepositTerm(ch, l), RefOf(l), DepositPart(ch, cu));
    forall x | x in UpTo(cu.ins, blk) ensures DepositPart(ch, cu)(x) >= 0.0 {
      PartsNonNegative(ch, cu, x);
    }
    SumSubset(refs, UpTo(cu.ins, blk), DepositPart(ch, cu));
  }

  lemma SweepFits(l: Ledger, ch: Chain, cu: Custodian, x: Extrinsic, cp: int, blk: int)
    requires Moves(ch, cu) && PriceNeverFalls(ch) && ch.blockAt(cp) == Some(blk) && InflowBy(l, ch, cp) && x in SweepRefs(l)
    ensures x in UpTo(cu.ins, blk) && SweepShares(ch)(x) == SweptPart(ch)(x)
  {
    hide SharesHeld, PriceNeverFalls, ToUnits;
    var k :| k in l && l[k].kind == EmissionRow && l[k].ref == x;
    assert ch.sweepAlpha(x) > 0.0 && ch.blockTime(x.0) <= cp;
    assert Max(0.0, ch.depositAlpha(x, 0)) + Max(0.0, ch.sweepAlpha(x)) <= Brought(cu, x);
    BlocksInOrder(ch, cu, x.0, cp, blk);
  }

  lemma SweepsWithin(l: Ledger, ch: Chain, cu: Custodian, cp: int, blk: int)
    requires Moves(ch, cu) && PriceNeverFalls(ch) && ch.blockAt(cp) == Some(blk) && InflowBy(l, ch, cp)
    ensures SweptShares(l, ch) <= Sum(UpTo(cu.ins, blk), SweptPart(ch))
  {
    hide Moves, PriceNeverFalls, InflowBy, SweptPart, SweepShares, SweepRefs, UpTo;
    forall x | x in SweepRefs(l) ensures x in UpTo(cu.ins, blk) && SweepShares(ch)(x) == SweptPart(ch)(x) {
      SweepFits(l, ch, cu, x, cp, blk);
    }
    SumCongruent(SweepRefs(l), SweepShares(ch), SweptPart(ch));
    forall x | x in UpTo(cu.ins, blk) ensures SweptPart(ch)(x) >= 0.0 {
      InIns(cu, x, blk);
      PartsNonNegative(ch, cu, x);
    }
    SumSubset(SweepRefs(l), UpTo(cu.ins, blk), SweptPart(ch));
  }

  lemma InIns(cu: Custodian, x: Extrinsic, blk: int)
    requires x in UpTo(cu.ins, blk)
    ensures x in cu.ins
  {
  }

  /** What arrived by the tables is no more than what was brought by the checkpoint's block. */
  lemma ArrivedWithin(l: Ledger, ch: Chain, cu: Custodian, cp: int, blk: int)
    requires Moves(ch, cu) && PriceNeverFalls(ch) && ch.blockAt(cp) == Some(blk) && InflowBy(l, ch, cp) && DepositsExact(l, ch)
    ensures Arrived(l, ch) <= Sum(UpTo(cu.ins, blk), SharesIn(ch, cu))
  {
    hide Moves, PriceNeverFalls, InflowBy, DepositsExact, DepositedShares, SweptShares, UpTo;
    DepositsWithin(l, ch, cu, cp, blk);
    SweepsWithin(l, ch, cu, cp, blk);
    PartsAddUp(ch, cu, UpTo(cu.ins, blk));
  }

  /** A transfer out by the checkpoint's block has been claimed and has released the request it pays. */
  lemma SentIsReleased(s: Setup, cu: Custodian, rule: Rule, requests: map<ReqKey, Request>, cp: int, blk: int, x: Extrinsic)
    requires Honest(s, cu, rule) && cp % STEP_S == 0 && s.w.ch.blockAt(cp) == Some(blk) && x in UpTo(cu.outs, blk)
    requires AllFreed(s, cu, rule, requests, cp) && RequestsAs(s, cu, requests, cp) && RequestsSound(requests, s.w.ch)
    ensures IsFreed(cu, requests, x)
    ensures SharesOut(s.w.ch, cu)(x) == ReleasedTerm(s.w.ch, requests)(cu.pays(x))
  {
    hide WellSet, OwnKeys, Moves, ToUnits, DueAt, Filed;
    assert FiledBy(s, cu, rule, x, cp);
    var c :| Filed(s, cu, rule, c, x) && c.tRecv <= cp * US;
    assert IsFreed(cu, requests, x);
    var k := cu.pays(x);
    assert RequestAs(s, cu, k, requests[k], cp) && RequestSound(requests[k], s.w.ch);
  }

  lemma ReleasedCovers(s: Setup, cu: Custodian, rule: Rule, requests: map<ReqKey, Request>, cp: int, blk: int)
    requires Honest(s, cu, rule) && cp % STEP_S == 0 && s.w.ch.blockAt(cp) == Some(blk)
    requires AllFreed(s, cu, rule, requests, cp) && RequestsAs(s, cu, requests, cp) && RequestsSound(requests, s.w.ch)
    ensures Sum(UpTo(cu.outs, blk), SharesOut(s.w.ch, cu)) <= ReleasedShares(s.w.ch, requests)
  {
    hide WellSet, OwnKeys, Moves, AllFreed, RequestsAs, SharesOut, ReleasedOf;
    var xs := UpTo(cu.outs, blk);
    forall x | x in xs
      ensures cu.pays(x) in requests && SharesOut(s.w.ch, cu)(x) <= ReleasedTerm(s.w.ch, requests)(cu.pays(x))
    {
      SentIsReleased(s, cu, rule, requests, cp, blk, x);
    }
    SumInto(xs, SharesOut(s.w.ch, cu), cu.pays, ReleasedTerm(s.w.ch, requests));
    forall k | k in requests ensures ReleasedTerm(s.w.ch, requests)(k) >= 0.0 {
      ReleasedNonNegative(s.w.ch, requests[k]);
    }
    SumSubset(Image(xs, cu.pays), requests.Keys, ReleasedTerm(s.w.ch, requests));
  }

  lemma ReleasedNonNegative(ch: Chain, r: Request)
    requires RequestSound(r, ch)
    ensures ReleasedOf(ch, r) >= 0.0
  {
    if r.releasedBy.Some? && ch.price(r.releasedBy.value.0).Some? {
      UnitsOfAlpha(r.releasedAlpha, ch.price(r.releasedBy.value.0).value);
    }
  }

  /** No release in the tables is larger than what was approved. */
  lemma ReleasesAreHonest(s: Setup, cu: Custodian, rule: Rule, st: State, cp: int, blk: int)
    requires Honest(s, cu, rule) && PriceNeverFalls(s.w.ch) && cp % STEP_S == 0 && s.w.ch.blockAt(cp) == Some(blk)
    requires CreditedThrough(s, st) == cp && PaysApproved(s, cu, rule, st)
    requires RequestsAs(s, cu, st.db.requests, cp) && RequestsSound(st.db.requests, s.w.ch)
    ensures HonestReleases(st.db.requests)
  {
    hide WellSet, OwnKeys, DueAt, Filed, CreditedThrough, SharesHeld, PriceNeverFalls;
    var requests := st.db.requests;
    forall k | k in requests && requests[k].status == Released ensures requests[k].releasedAlpha <= requests[k].approved {
      assert RequestAs(s, cu, k, requests[k], cp) && RequestSound(requests[k], s.w.ch);
      var x := requests[k].releasedBy.value;
      BlocksInOrder(s.w.ch, cu, x.0, cp, blk);
      assert FiledBy(s, cu, rule, x, cp);
      var c :| Filed(s, cu, rule, c, x) && c.tRecv <= cp * US;
      assert OpenFor(s.w.ch, cu, requests, x);
    }
  }

  /** The stake covers what arrived by the tables, less what the tables know released. */
  lemma StakeIsHeld(s: Setup, cu: Custodian, rule: Rule, db: Db, cp: int, blk: int)
    requires Honest(s, cu, rule) && PriceNeverFalls(s.w.ch) && cp % STEP_S == 0 && s.w.ch.blockAt(cp) == Some(blk)
    requires AllFreed(s, cu, rule, db.requests, cp) && RequestsAs(s, cu, db.requests, cp) && RequestsSound(db.requests, s.w.ch)
    requires InflowBy(db.ledger, s.w.ch, cp) && DepositsExact(db.ledger, s.w.ch)
    ensures StakeHeld(db, s.w.ch, blk)
  {
    hide WellSet, OwnKeys, Files, AllFreed, RequestsAs, RequestsSound, InflowBy, DepositsExact, Arrived,
         ReleasedShares, ToAlpha, UpTo, SharesIn, SharesOut;
    var ch := s.w.ch;
    ArrivedWithin(db.ledger, ch, cu, cp, blk);
    ReleasedCovers(s, cu, rule, db.requests, cp, blk);
    assert ch.price(blk).Some?;
    AlphaMonotone(Arrived(db.ledger, ch) - ReleasedShares(ch, db.requests), SharesHeld(ch, cu, blk), ch.price(blk).value);
  }

  lemma CheckIsCovered(s: Setup, cu: Custodian, rule: Rule, st: State)
    requires Honest(s, cu, rule) && PriceNeverFalls(s.w.ch) && Safe(s, st) && Enabled(s, st, DoPhaseB)
    requires var n := Do(s, st, DoPhaseB);
             Dated(s, cu, n) && PaysApproved(s, cu, rule, n) && AllFreed(s, cu, rule, n.db.requests, CreditedThrough(s, n))
    ensures !Do(s, st, DoPhaseB).db.checks[Next(st.db, s.first)].short
  {
    hide Next, KeysFrom, Received, CheckOf, StakeHeld, PriceNeverFalls, PhaseB, Liabilities, InflowBy, RequestsAs,
         AllFreed, PaysApproved,
         CreditedThrough, Moves, Files, OwnKeys, Calendar, Keyed, DepositsExact, RequestsSound, Balanced,
         NeverNegative, DebitsBy, HonestReleases;
    var cp := Next(st.db, s.first);
    var blk := s.w.ch.blockAt(cp).value;
    var n := Do(s, st, DoPhaseB);
    CreditedGrows(s, st, DoPhaseB);
    OnItsGrid(s, st);
    PhaseBKeeps(st.db, s.w, cp, blk, Received(s.w.claims, cp), Received(s.w.claims, cp - STEP_S), st.settled);
    ReleasesAreHonest(s, cu, rule, n, cp, blk);
    StakeIsHeld(s, cu, rule, n.db, cp, blk);
    StakeCoversLiabilities(n.db, s.w.ch, cp, blk);
    CoveredIsNotShort(n.db, s.w.ch, cp, blk);
    CheckReads(st.db, s.w, cp, blk);
  }

  ghost predicate NoneShort(db: Db)
  {
    forall c :: c in db.checks ==> !db.checks[c].short
  }

  /**
   On every run, no checkpoint is found short when the price never falls, every outflow pays a request for at most
   what it was approved and is claimed by the next checkpoint, and no claim comes before the first checkpoint at or
   after the request's due time has passed.
   */
  lemma {:induction false} NeverShort(s: Setup, cu: Custodian, rule: Rule, steps: seq<Step>, st: State)
    requires Honest(s, cu, rule) && PriceNeverFalls(s.w.ch) && WaitsForCheckpoint(rule)
    requires Leads(s, steps, st) && PaysApproved(s, cu, rule, st)
    ensures NoneShort(st.db)
    decreases |steps|
  {
    hide Enabled, Do, Safe, WellSet, OwnKeys, Moves, Files, Filed, Dated, PaysApproved, AllFreed, WaitsForCheckpoint,
         NothingOlder, PriceNeverFalls;
    if steps != [] {
      var front, last := steps[..|steps| - 1], steps[|steps| - 1];
      var before :| Leads(s, front, before) && Enabled(s, before, last) && Do(s, before, last) == st;
      ReachableIsSafe(s, front, before);
      RunHasNothingOlder(s, steps, st);
      PaidBefore(s, cu, rule, before, last);
      NeverShort(s, cu, rule, front, before);
      ChecksAfter(s, before, last);
      if last == DoPhaseB {
        RunIsDated(s, cu, rule, steps, st);
        RunFrees(s, cu, rule, steps, st);
        CheckIsCovered(s, cu, rule, before);
      }
    }
  }
}
