/**
 The Markets oracle's batch chain (neurons/markets_oracle_anchor.py:84-117, sn89_signals/oracle.py:69-112):
 windows are sealed, every three of them form a batch that links to the one before, and the newest link, committed
 on chain, pins the whole published history.
 */
module OracleChain {
  import opened Wrappers
  import opened Sorting

  const BATCH_WINDOWS := 3
  const SPAN := BATCH_WINDOWS * WINDOW_MS
  const GAP_SEAL_MS := 600_000

  /** Roots and links are opaque; `link` and `root` stand for the hash functions. */
  type Hash = nat

  datatype Batch = Batch(w0: int, n: int, root: Hash, prev: Hash, link: Hash)

  datatype Hashing = Hashing(genesis: Hash, empty: Hash, root: seq<(int, Hash)> -> Hash, link: (Hash, int, int, Hash) -> Hash)

  // ---------------------------------------------------------------- what a chain is

  predicate Linked(h: Hashing, b: Batch, prev: Hash)
  {
    b.prev == prev && h.link(prev, b.w0, b.n, b.root) == b.link
  }

  function LinkBefore(h: Hashing, bs: seq<Batch>, i: nat): Hash
    requires i <= |bs|
  {
    if i == 0 then h.genesis else bs[i - 1].link
  }

  lemma LinkedIs(h: Hashing, b: Batch, prev: Hash)
    ensures Linked(h, b, prev) <==> b.prev == prev && h.link(prev, b.w0, b.n, b.root) == b.link
  {
  }

  /** Every batch links to the one before it. */
  ghost predicate LinksOk(h: Hashing, bs: seq<Batch>)
  {
    forall i :: 0 <= i < |bs| ==> Linked(h, bs[i], LinkBefore(h, bs, i))
  }

  /** The windows of a batch. */
  function WindowsOf(w0: int): seq<int>
  {
    [w0, w0 + WINDOW_MS, w0 + 2 * WINDOW_MS]
  }

  predicate AllSealed(sealed: map<int, Hash>, w0: int)
  {
    forall w :: w in WindowsOf(w0) ==> w in sealed
  }

  function RootsOf(sealed: map<int, Hash>, w0: int): seq<(int, Hash)>
    requires AllSealed(sealed, w0)
  {
    [(w0, sealed[w0]), (w0 + WINDOW_MS, sealed[w0 + WINDOW_MS]), (w0 + 2 * WINDOW_MS, sealed[w0 + 2 * WINDOW_MS])]
  }

  /** A batch of three windows on the nine-minute grid, whose root is the root of those windows as sealed, in order. */
  ghost predicate BatchOk(h: Hashing, sealed: map<int, Hash>, b: Batch)
  {
    && b.w0 % 540_000 == 0 && b.n == 3
    && b.w0 in sealed && b.w0 + 180_000 in sealed && b.w0 + 360_000 in sealed
    && b.root == h.root([(b.w0, sealed[b.w0]), (b.w0 + 180_000, sealed[b.w0 + 180_000]), (b.w0 + 360_000, sealed[b.w0 + 360_000])])
  }

  /** The file is contiguous on the batch grid, linked from genesis, and every root recomputes. */
  ghost predicate ChainOk(h: Hashing, sealed: map<int, Hash>, bs: seq<Batch>)
  {
    && LinksOk(h, bs)
    && (forall i :: 0 <= i < |bs| ==> BatchOk(h, sealed, bs[i]))
    && Spaced(bs)
  }

  ghost predicate Spaced(bs: seq<Batch>)
  {
    forall i :: 0 < i < |bs| ==> bs[i].w0 == bs[i - 1].w0 + SPAN
  }

  lemma {:induction false} StartsGrow(bs: seq<Batch>, i: nat, j: nat)
    requires Spaced(bs) && i < j < |bs|
    ensures bs[i].w0 < bs[j].w0
    decreases j
  {
    if i < j - 1 {
      StartsGrow(bs, i, j - 1);
    }
  }

  // ---------------------------------------------------------------- the anchor service

  function GridCeil(t: int): int
  {
    -(-t / SPAN) * SPAN
  }

  /** One of the three windows from `w0` is neither sealed nor old enough to be sealed empty. */
  ghost predicate Unready(sealed: map<int, Hash>, w0: int, now: int)
  {
    exists i :: 0 <= i < 3 && w0 + 180_000 * i !in sealed && now < w0 + 180_000 * i + 180_000 + 600_000
  }

  /** A window nobody sealed is sealed empty once it is old enough. */
  predicate Overdue(w: int, now: int)
  {
    w + WINDOW_MS + GAP_SEAL_MS <= now
  }

  /**
   The anchor's durable state: the sealed windows and the batch file. The service keeps nothing else, so a restart
   is a sweep like any other.
   */
  class Anchor {
    const h: Hashing
    var sealed: map<int, Hash>
    var batches: seq<Batch>

    constructor (h: Hashing)
      ensures this.h == h && sealed == map[] && batches == [] && Valid()
    {
      this.h := h;
      sealed, batches := map[], [];
    }

    ghost predicate Valid()
      reads this
    {
      ChainOk(h, sealed, batches)
    }

    /** The recorder seals a window once; a sealed window stays as it is. */
    method RecorderSeals(w: int, root: Hash)
      requires Valid()
      modifies this`sealed
      ensures Valid() && sealed == if w in old(sealed) then old(sealed) else old(sealed)[w := root]
    {
      if w !in sealed {
        sealed := sealed[w := root];
        SealingKeepsChain(h, old(sealed), sealed, batches);
      }
    }

    method FirstWindow() returns (first: int)
      requires sealed != map[]
      ensures first in sealed && forall w :: w in sealed ==> first <= w
    {
      assert sealed.Keys != {};
      ghost var some := Member(sealed.Keys);
      first :| first in sealed.Keys;
      var rest := sealed.Keys;
      while rest != {}
        invariant rest <= sealed.Keys && first in sealed
        invariant forall w :: w in sealed && w !in rest ==> first <= w
        decreases rest
      {
        some := Member(rest);
        var w :| w in rest;
        if w < first {
          first := w;
        }
        rest := rest - {w};
      }
    }

    /** Looks up the three windows of a batch, sealing the overdue ones empty. */
    method SealOverdue(w0: int, now: int) returns (ready: bool)
      requires Valid()
      modifies this`sealed
      ensures Valid() && SealedMore(h, old(sealed), sealed, now) && ready == AllSealed(sealed, w0)
      ensures sealed.Keys <= old(sealed).Keys + {w0, w0 + WINDOW_MS, w0 + 2 * WINDOW_MS}
      ensures ready || Unready(sealed, w0, now)
    {
      var ws := WindowsOf(w0);
      ready := true;
      for i := 0 to |ws|
        invariant SealedMore(h, old(sealed), sealed, now) && sealed.Keys <= old(sealed).Keys + {w0, w0 + WINDOW_MS, w0 + 2 * WINDOW_MS}
        invariant forall j :: 0 <= j < i ==> ws[j] in sealed || !Overdue(ws[j], now)
        invariant ready == forall j :: 0 <= j < i ==> ws[j] in sealed
      {
        if ws[i] !in sealed && Overdue(ws[i], now) {
          sealed := sealed[ws[i] := h.empty];
        }
        if ws[i] !in sealed {
          ready := false;
        }
      }
      SealingKeepsChain(h, old(sealed), sealed, batches);
      if !ready {
        NotReady(sealed, w0, now);
      }
    }

    /**
     Appends every batch that is complete. Nothing that was sealed or published changes; the file stays a valid
     chain; and the sweep stops only at a batch with a window that is neither sealed nor overdue.
     */
    method Sweep(now: int)
      requires Valid()
      modifies this
      ensures Valid() && old(batches) <= batches && SealedMore(h, old(sealed), sealed, now)
      ensures old(batches) == [] && batches != [] ==>
                exists w :: w in old(sealed) && (forall v :: v in old(sealed) ==> w <= v) && batches[0].w0 == GridCeil(w)
      ensures batches != [] ==> Unready(sealed, batches[|batches| - 1].w0 + 540_000, now)
    {
      hide ChainOk, SealedMore, AllSealed, WindowsOf, Overdue, GridCeil, LinkBefore, Unready;
      SealedNone(h, sealed, now);
      if batches == [] && sealed == map[] {
        return;
      }
      var w0, prev := NextStart();
      ghost var w1 := w0;
      ghost var bound := Bound(sealed, now);
      while true
        invariant Valid() && old(batches) <= batches && SealedMore(h, old(sealed), sealed, now)
        invariant Continues(w0, prev)
        invariant batches == [] ==> w0 == w1
        invariant old(batches) == [] && batches != [] ==> batches[0].w0 == w1
        invariant forall w :: w in sealed ==> w < bound || w < w0
        decreases bound - w0
      {
        var ready;
        label L:
        ready, w0, prev := AppendReady(w0, prev, now);
        SealedMoreTrans(h, old(sealed), old@L(sealed), sealed, now);
        if !ready {
          break;
        }
      }
    }

    /** `w0` starts the batch after the last one, whose link is `prev`. */
    ghost predicate Continues(w0: int, prev: Hash)
      reads this
    {
      w0 % SPAN == 0 && prev == LinkBefore(h, batches, |batches|) && (batches != [] ==> w0 == batches[|batches| - 1].w0 + SPAN)
    }

    /** Where the next batch starts: after the last one, or at the grid point of the first sealed window. */
    method NextStart() returns (w0: int, prev: Hash)
      requires Valid() && (batches == [] ==> sealed != map[])
      ensures Continues(w0, prev)
      ensures batches == [] ==> exists w :: w in sealed && (forall v :: v in sealed ==> w <= v) && w0 == GridCeil(w)
    {
      hide ChainOk, GridCeil;
      if batches != [] {
        NextOnGrid(h, sealed, batches);
        return batches[|batches| - 1].w0 + SPAN, batches[|batches| - 1].link;
      }
      var first := FirstWindow();
      GridCeilOnGrid(first);
      return GridCeil(first), h.genesis;
    }

    /** Appends the batch at `w0` once its windows are sealed, the overdue ones empty. */
    method AppendReady(w0: int, prev: Hash, now: int) returns (ready: bool, next: int, link: Hash)
      requires Valid() && Continues(w0, prev)
      modifies this
      ensures Valid() && SealedMore(h, old(sealed), sealed, now) && Continues(next, link)
      ensures sealed.Keys <= old(sealed).Keys + {w0, w0 + WINDOW_MS, w0 + 2 * WINDOW_MS}
      ensures ready ==> next == w0 + SPAN && |batches| == |old(batches)| + 1 && old(batches) == batches[..|old(batches)|]
      ensures ready ==> batches[|old(batches)|].w0 == w0 && (w0 in old(sealed) || w0 < now)
      ensures !ready ==> next == w0 && batches == old(batches) && Unready(sealed, w0, now)
    {
      hide ChainOk, SealedMore, AllSealed, WindowsOf, Overdue, Unready;
      next, link := w0, prev;
      ready := SealOverdue(w0, now);
      if ready {
        StartIsSealed(sealed, w0);
        if w0 !in old(sealed) {
          NewIsOverdue(h, old(sealed), sealed, now, w0);
        }
        link := Append(w0, prev);
        next := w0 + SPAN;
      }
    }

    /** Appends the batch that starts at `w0`; returns its link. */
    method Append(w0: int, prev: Hash) returns (link: Hash)
      requires Valid() && AllSealed(sealed, w0) && w0 % SPAN == 0 && prev == LinkBefore(h, batches, |batches|)
      requires batches != [] ==> w0 == batches[|batches| - 1].w0 + SPAN
      modifies this`batches
      ensures Valid() && |batches| == |old(batches)| + 1 && old(batches) == batches[..|old(batches)|]
      ensures batches[|old(batches)|].w0 == w0 && batches[|old(batches)|].link == link
    {
      hide RootsOf;
      var root := h.root(RootsOf(sealed, w0));
      var b := Batch(w0, BATCH_WINDOWS, root, prev, h.link(prev, w0, BATCH_WINDOWS, root));
      NewBatchIsOk(h, sealed, b);
      AppendKeepsChain(h, sealed, batches, b);
      batches, link := batches + [b], b.link;
    }
  }

  lemma NotReady(sealed: map<int, Hash>, w0: int, now: int)
    requires var ws := WindowsOf(w0);
             exists j :: 0 <= j < |ws| && ws[j] !in sealed && !Overdue(ws[j], now)
    ensures Unready(sealed, w0, now)
  {
    var ws := WindowsOf(w0);
    var j :| 0 <= j < |ws| && ws[j] !in sealed && !Overdue(ws[j], now);
    assert ws[j] == w0 + 180_000 * j;
  }

  lemma NewBatchIsOk(h: Hashing, sealed: map<int, Hash>, b: Batch)
    requires AllSealed(sealed, b.w0) && b.w0 % SPAN == 0 && b.n == BATCH_WINDOWS && b.root == h.root(RootsOf(sealed, b.w0))
    ensures BatchOk(h, sealed, b)
  {
    var ws := WindowsOf(b.w0);
    assert ws[0] in ws && ws[1] in ws && ws[2] in ws;
  }

  lemma StartIsSealed(sealed: map<int, Hash>, w0: int)
    requires AllSealed(sealed, w0)
    ensures w0 in sealed
  {
    assert w0 in WindowsOf(w0);
  }

  lemma GridCeilOnGrid(t: int)
    ensures GridCeil(t) % SPAN == 0 && t <= GridCeil(t) < t + SPAN
  {
    var k := -t / SPAN;
    assert GridCeil(t) == -k * SPAN;
  }

  lemma NextOnGrid(h: Hashing, sealed: map<int, Hash>, bs: seq<Batch>)
    requires ChainOk(h, sealed, bs) && bs != []
    ensures (bs[|bs| - 1].w0 + SPAN) % SPAN == 0
  {
    hide LinksOk, Spaced, AllSealed, RootsOf;
    assert BatchOk(h, sealed, bs[|bs| - 1]);
    var w0 := bs[|bs| - 1].w0;
    hide ChainOk, BatchOk;
    assert (w0 + SPAN) % SPAN == w0 % SPAN;
  }

  /** Sealed windows are kept; new ones are empty, and ended at least ten minutes ago. */
  ghost predicate SealedMore(h: Hashing, old_: map<int, Hash>, sealed: map<int, Hash>, now: int)
  {
    && (forall w :: w in old_ ==> w in sealed && sealed[w] == old_[w])
    && (forall w :: w in sealed && w !in old_ ==> sealed[w] == h.empty && w + 180_000 + 600_000 <= now)
  }

  lemma SealedMoreTrans(h: Hashing, a: map<int, Hash>, b: map<int, Hash>, c: map<int, Hash>, now: int)
    requires SealedMore(h, a, b, now) && SealedMore(h, b, c, now)
    ensures SealedMore(h, a, c, now)
  {
  }

  lemma NewIsOverdue(h: Hashing, a: map<int, Hash>, b: map<int, Hash>, now: int, w: int)
    requires SealedMore(h, a, b, now) && w in b && w !in a
    ensures w < now
  {
  }

  lemma SealedNone(h: Hashing, a: map<int, Hash>, now: int)
    ensures SealedMore(h, a, a, now)
  {
  }

  lemma SealingKeepsChain(h: Hashing, a: map<int, Hash>, b: map<int, Hash>, bs: seq<Batch>)
    requires ChainOk(h, a, bs) && forall w :: w in a ==> w in b && b[w] == a[w]
    ensures ChainOk(h, b, bs)
  {
    hide BatchOk, LinksOk, Spaced;
    forall i | 0 <= i < |bs| ensures BatchOk(h, b, bs[i]) {
      SealingKeepsBatch(h, a, b, bs[i]);
    }
  }

  lemma SealingKeepsBatch(h: Hashing, a: map<int, Hash>, b: map<int, Hash>, x: Batch)
    requires BatchOk(h, a, x) && forall w :: w in a ==> w in b && b[w] == a[w]
    ensures BatchOk(h, b, x)
  {
    var w0 := x.w0;
    assert w0 in WindowsOf(w0) && w0 + WINDOW_MS in WindowsOf(w0) && w0 + 2 * WINDOW_MS in WindowsOf(w0);
    assert AllSealed(b, w0);
    assert RootsOf(b, w0) == RootsOf(a, w0);
  }

  lemma AppendKeepsChain(h: Hashing, sealed: map<int, Hash>, bs: seq<Batch>, b: Batch)
    requires ChainOk(h, sealed, bs) && BatchOk(h, sealed, b) && Linked(h, b, LinkBefore(h, bs, |bs|))
    requires bs != [] ==> b.w0 == bs[|bs| - 1].w0 + SPAN
    ensures ChainOk(h, sealed, bs + [b])
  {
    hide Linked, BatchOk, LinksOk, Spaced;
    AppendLinks(h, bs, b);
    AppendSpaced(bs, b);
  }

  lemma AppendSpaced(bs: seq<Batch>, b: Batch)
    requires Spaced(bs) && (bs != [] ==> b.w0 == bs[|bs| - 1].w0 + SPAN)
    ensures Spaced(bs + [b])
  {
  }

  lemma AppendLinks(h: Hashing, bs: seq<Batch>, b: Batch)
    requires LinksOk(h, bs) && Linked(h, b, LinkBefore(h, bs, |bs|))
    ensures LinksOk(h, bs + [b])
  {
    hide Linked;
    var n := bs + [b];
    forall i | 0 <= i < |n| ensures Linked(h, n[i], LinkBefore(h, n, i)) {
      if i < |bs| {
        assert Linked(h, bs[i], LinkBefore(h, bs, i));
      }
    }
  }

  /** A time past every sealed window and past the clock. */
  ghost function Bound(sealed: map<int, Hash>, now: int): (b: int)
    ensures now < b && forall w :: w in sealed ==> w < b
  {
    BoundOf(sealed.Keys, now)
  }

  ghost function BoundOf(ws: set<int>, now: int): (b: int)
    ensures now < b && forall w :: w in ws ==> w < b
    decreases |ws|
  {
    if w :| w in ws then
      var rest := BoundOf(ws - {w}, now);
      assert forall v :: v in ws ==> v == w || v in ws - {w};
      if rest <= w then w + 1 else rest
    else now + 1
  }

  // ---------------------------------------------------------------- verifying a published chain

  predicate Earlier(a: Batch, b: Batch)
  {
    a.w0 <= b.w0
  }

  /** The published batches verify when, in order of their windows, each links to the one before. */
  method VerifyChain(h: Hashing, published: seq<Batch>) returns (ok: bool)
    ensures ok <==> LinksOk(h, Sort(Earlier, published))
  {
    hide Sort, Linked;
    var bs := Sort(Earlier, published);
    var prev := h.genesis;
    for i := 0 to |bs|
      invariant prev == LinkBefore(h, bs, i)
      invariant forall j :: 0 <= j < i ==> Linked(h, bs[j], LinkBefore(h, bs, j))
    {
      LinkedIs(h, bs[i], prev);
      if bs[i].prev != prev || h.link(prev, bs[i].w0, bs[i].n, bs[i].root) != bs[i].link {
        return false;
      }
      prev := bs[i].link;
    }
    ok := true;
  }

  /** What the anchor writes verifies, in whatever order the file's lines are read. */
  lemma AnchoredVerifies(h: Hashing, sealed: map<int, Hash>, bs: seq<Batch>, published: seq<Batch>)
    requires ChainOk(h, sealed, bs) && multiset(published) == multiset(bs)
    ensures Sort(Earlier, published) == bs && LinksOk(h, Sort(Earlier, published))
  {
    OrderedByWindow(bs);
    SameWindowSameBatch(bs);
    hide LinksOk, BatchOk, Spaced;
    SortIsCanonical(Earlier, bs, published);
    SortOfOrdered(Earlier, bs);
  }

  lemma OrderedByWindow(bs: seq<Batch>)
    requires Spaced(bs)
    ensures Ordered(Earlier, bs) && TotalPreorder(Earlier)
  {
    forall i, j | 0 <= i < j < |bs| ensures Earlier(bs[i], bs[j]) {
      StartsGrow(bs, i, j);
    }
  }

  lemma SameWindowSameBatch(bs: seq<Batch>)
    requires Spaced(bs)
    ensures Strict(Earlier, multiset(bs))
  {
    forall x, y | x in multiset(bs) && y in multiset(bs) && Earlier(x, y) && Earlier(y, x) ensures x == y {
      var i :| 0 <= i < |bs| && bs[i] == x;
      var j :| 0 <= j < |bs| && bs[j] == y;
      if i < j {
        StartsGrow(bs, i, j);
      } else if j < i {
        StartsGrow(bs, j, i);
      }
    }
  }

  /** Links commit to everything they are made of, and none is the genesis. */
  ghost predicate Injective(h: Hashing)
  {
    && (forall p, w, n, r, q, v, m, s :: h.link(p, w, n, r) == h.link(q, v, m, s) ==> p == q && w == v && n == m && r == s)
    && (forall p, w, n, r :: h.link(p, w, n, r) != h.genesis)
  }

  /** Two valid chains with the same newest link are the same chain. */
  lemma {:induction false} HeadPinsHistory(h: Hashing, a: seq<Batch>, b: seq<Batch>)
    requires Injective(h) && LinksOk(h, a) && LinksOk(h, b) && LinkBefore(h, a, |a|) == LinkBefore(h, b, |b|)
    ensures a == b
    decreases |a|
  {
    hide Injective, LinksOk, LinkBefore;
    LastIsPinned(h, a, b);
    if a != [] {
      DropLast(h, a);
      DropLast(h, b);
      HeadPinsHistory(h, a[..|a| - 1], b[..|b| - 1]);
      FrontAndLast(a);
      FrontAndLast(b);
    }
  }

  lemma FrontAndLast(a: seq<Batch>)
    requires a != []
    ensures a == a[..|a| - 1] + [a[|a| - 1]]
  {
  }

  lemma LastIsPinned(h: Hashing, a: seq<Batch>, b: seq<Batch>)
    requires Injective(h) && LinksOk(h, a) && LinksOk(h, b) && LinkBefore(h, a, |a|) == LinkBefore(h, b, |b|)
    ensures a == [] <==> b == []
    ensures a != [] ==> a[|a| - 1] == b[|b| - 1] && LinkBefore(h, a, |a| - 1) == LinkBefore(h, b, |b| - 1)
  {
    if a != [] {
      assert Linked(h, a[|a| - 1], LinkBefore(h, a, |a| - 1));
    }
    if b != [] {
      assert Linked(h, b[|b| - 1], LinkBefore(h, b, |b| - 1));
    }
  }

  lemma DropLast(h: Hashing, a: seq<Batch>)
    requires a != [] && LinksOk(h, a)
    ensures LinksOk(h, a[..|a| - 1]) && LinkBefore(h, a[..|a| - 1], |a| - 1) == LinkBefore(h, a, |a| - 1)
  {
    TakeIsLinked(h, a, |a| - 1);
  }

  lemma TakeIsLinked(h: Hashing, a: seq<Batch>, n: nat)
    requires n <= |a| && LinksOk(h, a)
    ensures LinksOk(h, a[..n]) && LinkBefore(h, a[..n], n) == LinkBefore(h, a, n)
  {
    hide Linked;
    forall i | 0 <= i < n ensures Linked(h, a[..n][i], LinkBefore(h, a[..n], i)) {
      assert LinkBefore(h, a[..n], i) == LinkBefore(h, a, i);
    }
  }

  /** A committed link found in the published chain pins every batch up to it. */
  lemma CommitmentPinsPrefix(h: Hashing, committed: seq<Batch>, published: seq<Batch>, i: nat)
    requires Injective(h) && LinksOk(h, committed) && LinksOk(h, published) && committed != [] && i < |published|
    requires published[i].link == committed[|committed| - 1].link
    ensures committed == published[..i + 1]
  {
    TakeIsLinked(h, published, i + 1);
    HeadPinsHistory(h, committed, published[..i + 1]);
  }
}
