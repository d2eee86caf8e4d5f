/**
 The share blend (sn89_signals/competitions.py:65-106), the weekly pool split (sn89_signals/agent_books.py:566-590)
 and the mapping of its accounts to uids (sn89_signals/agent_books_io.py:843-862): every vector that is paid sums
 to one, and a competition that fails burns its own share and nobody else's.
 */
module Competitions {
  import opened Wrappers
  import opened Sums

  type Uid = int

  type Vector = map<Uid, real>

  function Get(v: Vector): Uid -> real
  {
    (u: Uid) => if u in v then v[u] else 0.0
  }

  ghost function Total(v: Vector): real
  {
    Sum(v.Keys, Get(v))
  }

  // ---------------------------------------------------------------- sums of vectors

  /** Adding vectors entry by entry adds their totals. */
  lemma TotalAdds(a: Vector, b: Vector, c: real, r: Vector)
    requires r.Keys == a.Keys + b.Keys && forall u :: Get(r)(u) == Get(a)(u) + Scale(c, Get(b)(u))
    ensures Total(r) == Total(a) + Scale(c, Total(b))
  {
    Distribute(c, 0.0, 0.0);
    hide Scale;
    var scaled := (u: Uid) => Scale(c, Get(b)(u));
    SumOverSupport(a.Keys, r.Keys, Get(a));
    SumOverSupport(b.Keys, r.Keys, scaled);
    SumScaled(b.Keys, Get(b), c, scaled);
    forall u | u in r.Keys ensures Get(r)(u) == Get(a)(u) + scaled(u) {
      assert Get(r)(u) == Get(a)(u) + Scale(c, Get(b)(u));
    }
    SumPlus(r.Keys, Get(a), scaled, Get(r));
  }

  method TotalOf(v: Vector) returns (t: real)
    ensures t == Total(v)
  {
    t := SumOver(v.Keys, Get(v));
  }

  /** Every entry divided by the total. */
  function Divided(v: Vector, t: real): Vector
    requires t > 0.0
  {
    map u | u in v :: v[u] / t
  }

  lemma DividedSums(v: Vector, t: real)
    requires t > 0.0
    ensures Total(Divided(v, t)) == Total(v) / t
    ensures t == Total(v) ==> Total(Divided(v, t)) == 1.0
  {
    hide Scale;
    var d := Divided(v, t);
    forall u | u in v.Keys ensures Get(d)(u) == Scale(1.0 / t, Get(v)(u)) {
      Over(v[u], t);
    }
    SumScaled(v.Keys, Get(v), 1.0 / t, Get(d));
    assert d.Keys == v.Keys;
    Over(Total(v), t);
    OverItself(t);
  }

  lemma Over(x: real, t: real)
    requires t > 0.0
    ensures x / t == Scale(1.0 / t, x)
  {
    assert x / t == 1.0 / t * x;
  }

  lemma OverItself(t: real)
    requires t > 0.0
    ensures t / t == 1.0
  {
  }

  // ---------------------------------------------------------------- one competition

  function Positive(v: Vector): Vector
  {
    map u | u in v && v[u] > 0.0 :: v[u]
  }

  /** The positive entries, scaled to sum to one; nothing when there are none. */
  ghost function Normalized(v: Vector): Option<Vector>
  {
    var clean := Positive(v);
    if Total(clean) <= 0.0 then None else Some(Divided(clean, Total(clean)))
  }

  lemma NormalizedSumsToOne(v: Vector)
    ensures Normalized(v).Some? ==> Total(Normalized(v).value) == 1.0
    ensures Normalized(v).Some? ==> forall u :: Get(Normalized(v).value)(u) >= 0.0
    ensures Normalized(v).None? <==> forall u :: u in v ==> v[u] <= 0.0
  {
    var clean := Positive(v);
    if u :| u in v && v[u] > 0.0 {
      SumTermAtMost(clean.Keys, Get(clean), u);
      DividedSums(clean, Total(clean));
    } else {
      assert forall u :: u !in clean;
      assert clean == map[];
    }
  }

  /** A uid's entry, nothing when it is not positive. */
  function EntryOf(v: Vector): Uid -> real
  {
    (u: Uid) => if u in v && v[u] > 0.0 then v[u] else 0.0
  }

  /** Each uid has the part of one that its entry is of all the positive entries; there is no vector without them. */
  ghost predicate InProportion(v: Vector, r: Option<Vector>)
  {
    var tot := Sum(v.Keys, EntryOf(v));
    if exists u :: u in v && v[u] > 0.0 then
      r.Some? && tot > 0.0 && forall u :: Get(r.value)(u) == EntryOf(v)(u) / tot
    else r.None?
  }

  lemma NormalizedInProportion(v: Vector)
    ensures InProportion(v, Normalized(v))
  {
    var clean := Positive(v);
    SumOverSupport(clean.Keys, v.Keys, EntryOf(v));
    SumCongruent(clean.Keys, Get(clean), EntryOf(v));
    NormalizedSumsToOne(v);
    if Normalized(v).Some? {
      var tot := Total(clean);
      forall u ensures Get(Divided(clean, tot))(u) == EntryOf(v)(u) / tot {
        if u !in clean {
          assert EntryOf(v)(u) == 0.0;
        }
      }
    }
  }

  method Normalize(v: Vector) returns (r: Option<Vector>)
    ensures r == Normalized(v) && InProportion(v, r)
  {
    NormalizedInProportion(v);
    var clean := Positive(v);
    var t := TotalOf(clean);
    if t <= 0.0 {
      return None;
    }
    r := Some(Divided(clean, t));
  }

  // ---------------------------------------------------------------- the blend

  datatype Share = Share(key: string, share: real)

  /** A competition's own vector, empty when it could not be computed. */
  type Vectors = map<string, Vector>

  function VectorOf(vs: Vectors, key: string): Vector
  {
    if key in vs then vs[key] else map[]
  }

  /** What one competition gives a uid: its share of that competition, or the burnt share. */
  ghost function Gives(vs: Vectors, s: Share, burn: Uid, u: Uid): real
  {
    if s.share <= 0.0 then 0.0
    else
      match Normalized(VectorOf(vs, s.key))
      case None => if u == burn then s.share else 0.0
      case Some(v) => Scale(s.share, Get(v)(u))
  }

  /** What all the competitions give a uid. */
  ghost function Given(vs: Vectors, shares: seq<Share>, burn: Uid, u: Uid): real
  {
    if shares == [] then 0.0
    else Given(vs, shares[..|shares| - 1], burn, u) + Gives(vs, shares[|shares| - 1], burn, u)
  }

  function Granted(shares: seq<Share>): real
  {
    if shares == [] then 0.0
    else
      var s := shares[|shares| - 1].share;
      Granted(shares[..|shares| - 1]) + (if s <= 0.0 then 0.0 else s)
  }

  function Weight(given: real, granted: real): real
    requires granted > 0.0
  {
    given / granted
  }

  lemma {:induction false} GrantedNonNegative(shares: seq<Share>)
    ensures Granted(shares) >= 0.0
    decreases |shares|
  {
    if shares != [] {
      GrantedNonNegative(shares[..|shares| - 1]);
    }
  }

  /** Adds a competition's vector, scaled by its share. */
  method AddScaled(combined: Vector, v: Vector, share: real) returns (r: Vector)
    ensures r.Keys == combined.Keys + v.Keys && forall u :: Get(r)(u) == Get(combined)(u) + Scale(share, Get(v)(u))
    ensures Total(r) == Total(combined) + Scale(share, Total(v))
  {
    r := combined;
    var rest := v.Keys;
    while rest != {}
      invariant rest <= v.Keys && r.Keys == combined.Keys + (v.Keys - rest)
      invariant forall u :: Get(r)(u) == Get(combined)(u) + (if u in rest then 0.0 else Scale(share, Get(v)(u)))
      decreases rest
    {
      ghost var some := Member(rest);
      var u :| u in rest;
      r := r[u := Get(r)(u) + Scale(share, v[u])];
      rest := rest - {u};
    }
    TotalAdds(combined, v, share, r);
  }

  /**
   Every uid gets exactly what the competitions give it, over what was granted; the weights are not negative and sum
   to one; with nothing granted everything burns.
   */
  ghost predicate IsBlend(vs: Vectors, shares: seq<Share>, burn: Uid, r: Vector)
  {
    && (Granted(shares) <= 0.0 ==> r == map[burn := 1.0])
    && (Granted(shares) > 0.0 ==> forall u :: Get(r)(u) == Weight(Given(vs, shares, burn, u), Granted(shares)))
    && Total(r) == 1.0
    && (forall u :: u in r ==> r[u] >= 0.0)
  }

  method Combine(vs: Vectors, shares: seq<Share>, burn: Uid) returns (r: Vector)
    ensures IsBlend(vs, shares, burn, r)
  {
    hide Scale, Get, Weight;
    var combined: Vector := map[];
    assert Total(combined) == 0.0;
    EmptyGives();
    for i := 0 to |shares|
      invariant Total(combined) == Granted(shares[..i])
      invariant forall u :: Get(combined)(u) == Given(vs, shares[..i], burn, u) >= 0.0
    {
      ghost var before := combined;
      combined := AddCompetition(vs, shares[i], burn, combined);
      assert shares[..i + 1][..i] == shares[..i];
    }
    assert shares[..|shares|] == shares;
    GrantedNonNegative(shares);
    var t := TotalOf(combined);
    if t <= 0.0 {
      r := map[burn := 1.0];
      OneSums(burn);
    } else {
      r := Divided(combined, t);
      DividedSums(combined, t);
      DividedGets(combined, t);
    }
  }

  lemma EmptyGives()
    ensures forall u :: Get(map[])(u) == 0.0
  {
  }

  lemma OneSums(u: Uid)
    ensures Total(map[u := 1.0]) == 1.0
  {
    var v: Vector := map[u := 1.0];
    SumTake(v.Keys, Get(v), u);
    assert v.Keys - {u} == {};
  }

  lemma DividedGets(v: Vector, t: real)
    requires t > 0.0 && forall u :: Get(v)(u) >= 0.0
    ensures forall u :: Get(Divided(v, t))(u) == Weight(Get(v)(u), t)
    ensures forall u :: u in Divided(v, t) ==> Divided(v, t)[u] >= 0.0
  {
    forall u | u in v ensures v[u] / t >= 0.0 {
      assert Get(v)(u) == v[u];
    }
  }

  method AddCompetition(vs: Vectors, s: Share, burn: Uid, combined: Vector) returns (r: Vector)
    ensures forall u :: Get(r)(u) == Get(combined)(u) + Gives(vs, s, burn, u)
    ensures forall u :: Gives(vs, s, burn, u) >= 0.0
    ensures Total(r) == Total(combined) + (if s.share <= 0.0 then 0.0 else s.share)
  {
    hide Normalized, Scale, Get;
    forall u ensures Gives(vs, s, burn, u) >= 0.0 {
      GivesNonNegative(vs, s, burn, u);
    }
    if s.share <= 0.0 {
      return combined;
    }
    NormalizedSumsToOne(VectorOf(vs, s.key));
    ScaleOne(s.share);
    var v := Normalize(VectorOf(vs, s.key));
    if v.None? {
      OneSums(burn);
      OneGets(burn);
      r := AddScaled(combined, map[burn := 1.0], s.share);
    } else {
      r := AddScaled(combined, v.value, s.share);
    }
  }

  lemma ScaleOne(c: real)
    ensures Scale(c, 1.0) == c && Scale(c, 0.0) == 0.0
  {
  }

  lemma OneGets(u: Uid)
    ensures forall v :: Get(map[u := 1.0])(v) == if v == u then 1.0 else 0.0
  {
  }

  /** What a competition gives, in its own entries: the share in proportion to the positive ones, or burnt. */
  lemma GivesInProportion(vs: Vectors, s: Share, burn: Uid, u: Uid)
    ensures var v := VectorOf(vs, s.key);
            var tot := Sum(v.Keys, EntryOf(v));
            if s.share <= 0.0 then Gives(vs, s, burn, u) == 0.0
            else if exists x :: x in v && v[x] > 0.0 then tot > 0.0 && Gives(vs, s, burn, u) == Scale(s.share, EntryOf(v)(u) / tot)
            else Gives(vs, s, burn, u) == if u == burn then s.share else 0.0
  {
    hide Scale, Get, EntryOf, Normalized;
    NormalizedInProportion(VectorOf(vs, s.key));
  }

  /** With one competition granted, its positive entries over their sum are the weights; without one, all burns. */
  lemma OneCompetition(vs: Vectors, s: Share, burn: Uid, r: Vector, u: Uid)
    requires s.share > 0.0 && IsBlend(vs, [s], burn, r)
    ensures var v := VectorOf(vs, s.key);
            var tot := Sum(v.Keys, EntryOf(v));
            if exists x :: x in v && v[x] > 0.0 then tot > 0.0 && Get(r)(u) == EntryOf(v)(u) / tot
            else Get(r)(u) == if u == burn then 1.0 else 0.0
  {
    hide Get, EntryOf, Gives;
    OneShare(vs, s, burn, u);
    GivesInProportion(vs, s, burn, u);
    var v := VectorOf(vs, s.key);
    var tot := Sum(v.Keys, EntryOf(v));
    if exists x :: x in v && v[x] > 0.0 {
      ScaledOver(s.share, EntryOf(v)(u) / tot);
    } else {
      ScaledOver(s.share, 1.0);
      ScaleOne(s.share);
    }
  }

  lemma OneShare(vs: Vectors, s: Share, burn: Uid, u: Uid)
    requires s.share > 0.0
    ensures Granted([s]) == s.share && Given(vs, [s], burn, u) == Gives(vs, s, burn, u)
  {
    hide Gives;
    var one := [s];
    assert one[..|one| - 1] == [];
    assert one[|one| - 1] == s;
  }

  lemma ScaledOver(c: real, x: real)
    requires c > 0.0
    ensures Weight(Scale(c, x), c) == x && Weight(0.0, c) == 0.0 && Weight(c, c) == 1.0
  {
  }

  // ---------------------------------------------------------------- outages

  /** Some competitions of `vs` failed in `ws`; the others are as they were. */
  ghost predicate Failed(vs: Vectors, ws: Vectors, keys: set<string>)
  {
    forall k :: VectorOf(ws, k) == if k in keys then map[] else VectorOf(vs, k)
  }

  /** What the failed competitions gave a uid while they worked. */
  ghost function Lost(vs: Vectors, shares: seq<Share>, keys: set<string>, burn: Uid, u: Uid): real
  {
    if shares == [] then 0.0
    else
      var s := shares[|shares| - 1];
      Lost(vs, shares[..|shares| - 1], keys, burn, u) + (if s.key in keys then Gives(vs, s, burn, u) else 0.0)
  }

  lemma NothingNormalizes()
    ensures Normalized(map[]).None?
  {
    assert Positive(map[]).Keys == {};
  }

  /**
   When competitions fail, every uid but the burn one loses exactly what they gave it: nobody else's weight moves,
   and none rises.
   */
  lemma {:induction false} OutageIsNeutral(vs: Vectors, ws: Vectors, keys: set<string>, shares: seq<Share>, burn: Uid, u: Uid)
    requires Failed(vs, ws, keys) && u != burn
    ensures Given(ws, shares, burn, u) == Given(vs, shares, burn, u) - Lost(vs, shares, keys, burn, u) <= Given(vs, shares, burn, u)
    decreases |shares|
  {
    hide Scale, Normalized;
    NothingNormalizes();
    if shares != [] {
      var s := shares[|shares| - 1];
      OutageIsNeutral(vs, ws, keys, shares[..|shares| - 1], burn, u);
      GivesNonNegative(vs, s, burn, u);
    }
  }

  /** What a uid's weight loses when the competitions fail. */
  ghost function LostWeight(vs: Vectors, shares: seq<Share>, keys: set<string>, burn: Uid): Uid -> real
    requires Granted(shares) > 0.0
  {
    (u: Uid) => Weight(Lost(vs, shares, keys, burn, u), Granted(shares))
  }

  lemma WeightOfDifference(x: real, y: real, granted: real)
    requires granted > 0.0
    ensures Weight(x - y, granted) == Weight(x, granted) - Weight(y, granted)
    ensures y >= 0.0 ==> Weight(y, granted) >= 0.0
  {
  }

  /**
   When competitions fail, each other uid's weight in the blend falls by exactly what they gave it, so none rises,
   and the burn uid's weight rises by the sum of what they gave all the others.
   */
  lemma OutageBurns(vs: Vectors, ws: Vectors, keys: set<string>, shares: seq<Share>, burn: Uid, r: Vector, q: Vector)
    requires Failed(vs, ws, keys) && Granted(shares) > 0.0 && IsBlend(vs, shares, burn, r) && IsBlend(ws, shares, burn, q)
    ensures var lost := LostWeight(vs, shares, keys, burn);
            && (forall u :: u != burn ==> Get(q)(u) == Get(r)(u) - lost(u) <= Get(r)(u))
            && Get(q)(burn) == Get(r)(burn) + Sum(r.Keys + q.Keys - {burn}, lost)
  {
    hide Given, Get, Failed, Weight, Sum;
    var lost := LostWeight(vs, shares, keys, burn);
    forall u | u != burn ensures Get(q)(u) == Get(r)(u) - lost(u) <= Get(r)(u) {
      OutageIsNeutral(vs, ws, keys, shares, burn, u);
      WeightOfDifference(Given(vs, shares, burn, u), Lost(vs, shares, keys, burn, u), Granted(shares));
    }
    var all := r.Keys + q.Keys + {burn};
    SumAsTotal(r, all);
    SumAsTotal(q, all);
    SumTake(all, Get(r), burn);
    SumTake(all, Get(q), burn);
    assert all - {burn} == r.Keys + q.Keys - {burn};
    SumPlus(all - {burn}, Get(q), lost, Get(r));
  }

  lemma SumAsTotal(v: Vector, all: set<Uid>)
    requires v.Keys <= all
    ensures Total(v) == Sum(all, Get(v))
  {
    SumOverSupport(v.Keys, all, Get(v));
  }

  lemma GivesNonNegative(vs: Vectors, s: Share, burn: Uid, u: Uid)
    ensures Gives(vs, s, burn, u) >= 0.0
  {
    if s.share > 0.0 {
      NormalizedSumsToOne(VectorOf(vs, s.key));
      hide Normalized;
      if Normalized(VectorOf(vs, s.key)).Some? {
        assert Get(Normalized(VectorOf(vs, s.key)).value)(u) >= 0.0;
      }
    }
  }

  // ---------------------------------------------------------------- the weekly pool

  /** One account's paid gain under its entity. */
  datatype Paid = Paid(entity: string, account: int, paid: real)

  function Counts(eligible: string -> bool, p: Paid): real
  {
    if eligible(p.entity) && p.paid > 0.0 then p.paid else 0.0
  }

  function PaidTo(eligible: string -> bool, rows: seq<Paid>, a: int): real
  {
    if rows == [] then 0.0
    else
      var p := rows[|rows| - 1];
      PaidTo(eligible, rows[..|rows| - 1], a) + (if p.account == a then Counts(eligible, p) else 0.0)
  }

  function PaidInAll(eligible: string -> bool, rows: seq<Paid>): real
  {
    if rows == [] then 0.0 else PaidInAll(eligible, rows[..|rows| - 1]) + Counts(eligible, rows[|rows| - 1])
  }

  /** The places in the list, and what each pays an account: a positive gain of an eligible entity. */
  function Places(rows: seq<Paid>): (ps: set<int>)
    ensures forall i :: i in ps <==> 0 <= i < |rows|
  {
    if rows == [] then {} else Places(rows[..|rows| - 1]) + {|rows| - 1}
  }

  function PaidAt(eligible: string -> bool, rows: seq<Paid>, a: int): int -> real
  {
    (i: int) => if 0 <= i < |rows| && rows[i].account == a && eligible(rows[i].entity) && rows[i].paid > 0.0 then rows[i].paid else 0.0
  }

  lemma {:induction false} PaidToIs(eligible: string -> bool, rows: seq<Paid>, a: int)
    ensures PaidTo(eligible, rows, a) == Sum(Places(rows), PaidAt(eligible, rows, a))
    decreases |rows|
  {
    if rows == [] {
      assert Places(rows) == {};
    } else {
      var front, k := rows[..|rows| - 1], |rows| - 1;
      PaidToIs(eligible, front, a);
      assert Places(rows) - {k} == Places(front);
      SumTake(Places(rows), PaidAt(eligible, rows, a), k);
      SumCongruent(Places(front), PaidAt(eligible, front, a), PaidAt(eligible, rows, a));
    }
  }

  lemma AddOne(v: Vector, u: Uid, x: real)
    ensures Total(v[u := Get(v)(u) + x]) == Total(v) + x
  {
    var n := v[u := Get(v)(u) + x];
    SumOverSupport(v.Keys, n.Keys, Get(v));
    SumChangeOne(n.Keys, Get(v), Get(n), u);
  }

  /**
   The split of the pool: shares are proportional to the paid gains of eligible entities' accounts, floored at zero
   one by one, and sum to one whenever anything is paid.
   */
  method WeeklyWeights(eligible: string -> bool, rows: seq<Paid>) returns (r: Vector)
    ensures PaidInAll(eligible, rows) <= 0.0 ==> r == map[]
    ensures PaidInAll(eligible, rows) > 0.0 ==>
              && Total(r) == 1.0
              && forall a :: Get(r)(a) == Weight(PaidTo(eligible, rows, a), PaidInAll(eligible, rows)) >= 0.0
    ensures forall a :: PaidTo(eligible, rows, a) == Sum(Places(rows), PaidAt(eligible, rows, a))
  {
    forall a ensures PaidTo(eligible, rows, a) == Sum(Places(rows), PaidAt(eligible, rows, a)) {
      PaidToIs(eligible, rows, a);
    }
    hide Get, Weight;
    EmptyGives();
    var paid: Vector := map[];
    assert Total(paid) == 0.0;
    for i := 0 to |rows|
      invariant Total(paid) == PaidInAll(eligible, rows[..i])
      invariant forall a :: Get(paid)(a) == PaidTo(eligible, rows[..i], a) >= 0.0
    {
      var p := rows[i];
      assert rows[..i + 1][..i] == rows[..i];
      if eligible(p.entity) && p.paid > 0.0 {
        AddOne(paid, p.account, p.paid);
        AddOneGets(paid, p.account, p.paid);
        paid := paid[p.account := Get(paid)(p.account) + p.paid];
      }
    }
    assert rows[..|rows|] == rows;
    var t := TotalOf(paid);
    if t <= 0.0 {
      return map[];
    }
    DividedSums(paid, t);
    DividedGets(paid, t);
    WeightsNonNegative(paid, t);
    r := Divided(paid, t);
  }

  lemma AddOneGets(v: Vector, u: Uid, x: real)
    ensures forall a :: Get(v[u := Get(v)(u) + x])(a) == Get(v)(a) + (if a == u then x else 0.0)
  {
  }

  lemma WeightsNonNegative(v: Vector, t: real)
    requires t > 0.0 && forall u :: Get(v)(u) >= 0.0
    ensures forall u :: Weight(Get(v)(u), t) >= 0.0
  {
  }

  // ---------------------------------------------------------------- accounts to uids

  /** An account's own uid, else its entity's, else the burn uid. */
  function Resolve(uidOf: map<string, Uid>, entityOf: string -> Option<string>, burn: Uid, account: string): Uid
  {
    if account in uidOf then uidOf[account]
    else
      var e := entityOf(account);
      if e.Some? && e.value in uidOf then uidOf[e.value] else burn
  }

  /** The uid an account is paid at: its own; without one its entity's; the burn uid without either. */
  predicate PaidAtUid(uidOf: map<string, Uid>, entityOf: string -> Option<string>, burn: Uid, account: string, u: Uid)
  {
    var e := entityOf(account);
    || (account in uidOf && u == uidOf[account])
    || (account !in uidOf && e.Some? && e.value in uidOf && u == uidOf[e.value])
    || (account !in uidOf && (e.None? || e.value !in uidOf) && u == burn)
  }

  lemma ResolvesToIt(uidOf: map<string, Uid>, entityOf: string -> Option<string>, burn: Uid, account: string)
    ensures forall u :: PaidAtUid(uidOf, entityOf, burn, account, u) <==> Resolve(uidOf, entityOf, burn, account) == u
  {
  }

  function Shares(shares: map<string, real>): string -> real
  {
    (a: string) => if a in shares && shares[a] > 0.0 then shares[a] else 0.0
  }

  function SharesOf(shares: map<string, real>, uidOf: map<string, Uid>, entityOf: string -> Option<string>, burn: Uid, u: Uid): string -> real
  {
    (a: string) => if a in shares && shares[a] > 0.0 && PaidAtUid(uidOf, entityOf, burn, a, u) then shares[a] else 0.0
  }

  lemma NoShares(shares: map<string, real>, uidOf: map<string, Uid>, entityOf: string -> Option<string>, burn: Uid)
    ensures Sum({}, Shares(shares)) == 0.0 && Total(map[]) == 0.0
    ensures forall u :: Sum({}, SharesOf(shares, uidOf, entityOf, burn, u)) == 0.0
  {
    var none: Vector := map[];
    assert none.Keys == {};
  }

  lemma SharesStep(shares: map<string, real>, uidOf: map<string, Uid>, entityOf: string -> Option<string>, burn: Uid, done: set<string>, a: string)
    requires a !in done && a in shares
    ensures Sum(done + {a}, Shares(shares)) == Sum(done, Shares(shares)) + (if shares[a] > 0.0 then shares[a] else 0.0)
    ensures forall u :: Sum(done + {a}, SharesOf(shares, uidOf, entityOf, burn, u))
                        == Sum(done, SharesOf(shares, uidOf, entityOf, burn, u))
                           + (if shares[a] > 0.0 && Resolve(uidOf, entityOf, burn, a) == u then shares[a] else 0.0)
  {
    hide Resolve, PaidAtUid;
    ResolvesToIt(uidOf, entityOf, burn, a);
    SumAddKey(done, Shares(shares), a);
    forall u ensures Sum(done + {a}, SharesOf(shares, uidOf, entityOf, burn, u))
                     == Sum(done, SharesOf(shares, uidOf, entityOf, burn, u)) + SharesOf(shares, uidOf, entityOf, burn, u)(a) {
      SumAddKey(done, SharesOf(shares, uidOf, entityOf, burn, u), a);
    }
  }

  /** Each uid gets the positive shares of the accounts that resolve to it; together they are all there was. */
  method AgentbookVector(shares: map<string, real>, uidOf: map<string, Uid>, entityOf: string -> Option<string>, burn: Uid)
    returns (r: Vector)
    ensures Total(r) == Sum(shares.Keys, Shares(shares))
    ensures forall u :: Get(r)(u) == Sum(shares.Keys, SharesOf(shares, uidOf, entityOf, burn, u))
  {
    hide Get, Resolve, Shares, SharesOf, Sum;
    EmptyGives();
    NoShares(shares, uidOf, entityOf, burn);
    r := map[];
    var rest := shares.Keys;
    ghost var done: set<string> := {};
    while rest != {}
      invariant rest <= shares.Keys && done == shares.Keys - rest
      invariant Total(r) == Sum(done, Shares(shares))
      invariant forall u :: Get(r)(u) == Sum(done, SharesOf(shares, uidOf, entityOf, burn, u))
      decreases rest
    {
      ghost var some := Member(rest);
      var a :| a in rest;
      var u := Resolve(uidOf, entityOf, burn, a);
      SharesStep(shares, uidOf, entityOf, burn, done, a);
      if shares[a] > 0.0 {
        AddOne(r, u, shares[a]);
        AddOneGets(r, u, shares[a]);
        r := r[u := Get(r)(u) + shares[a]];
      }
      rest, done := rest - {a}, done + {a};
    }
    assert done == shares.Keys;
  }
}
