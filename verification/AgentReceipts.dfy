/**
 Agent receipts: the batch loader (sn89_signals/agent_books_io.py:108-192) and the incremental index of the intake's
 append-only files (195-239). Receipts are known by what is signed, so signing one again gives the same receipt.
 */
module AgentReceipts {
  import opened Wrappers
  import opened Sorting

  /** What a receipt signs. Accounts and target bodies are known by their rank in byte order. */
  datatype Signed = Signed(account: nat, seqNo: int, tRecv: int, body: nat)

  datatype Receipt = Receipt(s: Signed, sig: nat)

  type Line = seq<char>

  /** A line that holds a well-shaped, verified receipt, or one that is dropped. */
  datatype Parsed = Good(r: Receipt) | Dropped

  type Parser = Line -> Parsed

  function WindowOf(t: int): int
  {
    t / WINDOW_MS * WINDOW_MS
  }

  // ---------------------------------------------------------------- order

  /** Receipts are ordered by receipt time, account and sequence number, then by what they sign. */
  predicate SignedLeq(x: Signed, y: Signed)
  {
    x.tRecv < y.tRecv || (x.tRecv == y.tRecv && (x.account < y.account || (x.account == y.account &&
    (x.seqNo < y.seqNo || (x.seqNo == y.seqNo && x.body <= y.body)))))
  }

  predicate ReceiptLeq(x: Receipt, y: Receipt)
  {
    SignedLeq(x.s, y.s)
  }

  lemma SignedOrder()
    ensures TotalPreorder(ReceiptLeq)
    ensures forall x, y :: SignedLeq(x, y) && SignedLeq(y, x) ==> x == y
  {
  }

  /** `rs` lists one receipt for each signed content of `s`, in order. */
  ghost predicate Lists(rs: seq<Receipt>, s: set<Signed>)
  {
    && (forall i, j :: 0 <= i < j < |rs| ==> SignedLeq(rs[i].s, rs[j].s) && rs[i].s != rs[j].s)
    && (forall i :: 0 <= i < |rs| ==> rs[i].s in s)
    && (forall x :: x in s ==> exists i :: 0 <= i < |rs| && rs[i].s == x)
  }

  /** A listing is in the order of receipt times; at one time of accounts, then sequence numbers, then contents. */
  lemma ListedInOrder(rs: seq<Receipt>, s: set<Signed>, i: nat, j: nat)
    requires Lists(rs, s) && i < j < |rs|
    ensures var x, y := rs[i].s, rs[j].s;
            || x.tRecv < y.tRecv
            || (x.tRecv == y.tRecv && x.account < y.account)
            || (x.tRecv == y.tRecv && x.account == y.account && x.seqNo < y.seqNo)
            || (x.tRecv == y.tRecv && x.account == y.account && x.seqNo == y.seqNo && x.body < y.body)
  {
    assert SignedLeq(rs[i].s, rs[j].s) && rs[i].s != rs[j].s;
  }

  /** A receipt's window starts at the multiple of 180 seconds at or before its receipt. */
  lemma ReceiptWindowIsGrid(t: int)
    ensures WindowOf(t) % 180_000 == 0 && WindowOf(t) <= t < WindowOf(t) + 180_000
  {
    var q := t / 180_000;
    assert WindowOf(t) == q * 180_000 && 180_000 * q <= t < 180_000 * q + 180_000;
  }

  /** Two listings of the same contents are the same, signatures aside. */
  lemma {:induction false} ListsAgree(a: seq<Receipt>, b: seq<Receipt>, s: set<Signed>)
    requires Lists(a, s) && Lists(b, s)
    ensures |a| == |b| && forall i :: 0 <= i < |a| ==> a[i].s == b[i].s
    decreases |a|
  {
    if a == [] {
      FirstListed(b, s);
    } else {
      FirstsAgree(a, b, s);
      ListsRest(a, s);
      ListsRest(b, s);
      hide Lists;
      ListsAgree(a[1..], b[1..], s - {a[0].s});
      forall k | 0 <= k < |a| ensures a[k].s == b[k].s {
        if k > 0 {
          assert a[k] == a[1..][k - 1] && b[k] == b[1..][k - 1];
        }
      }
    }
  }

  lemma FirstsAgree(a: seq<Receipt>, b: seq<Receipt>, s: set<Signed>)
    requires Lists(a, s) && Lists(b, s) && a != []
    ensures b != [] && a[0].s == b[0].s
  {
    hide SignedLeq;
    assert a[0].s in s;
    var j :| 0 <= j < |b| && b[j].s == a[0].s;
    assert b[0].s in s;
    var i :| 0 <= i < |a| && a[i].s == b[0].s;
    FirstIsLeast(a, i);
    FirstIsLeast(b, j);
    SignedOrder();
  }

  lemma FirstListed(b: seq<Receipt>, s: set<Signed>)
    requires Lists(b, s)
    ensures b != [] ==> b[0].s in s
  {
  }

  lemma FirstIsLeast(a: seq<Receipt>, i: nat)
    requires i < |a| && forall i, j :: 0 <= i < j < |a| ==> SignedLeq(a[i].s, a[j].s)
    ensures SignedLeq(a[0].s, a[i].s)
  {
  }

  lemma ListsRest(a: seq<Receipt>, s: set<Signed>)
    requires Lists(a, s) && a != []
    ensures Lists(a[1..], s - {a[0].s})
  {
    hide SignedLeq;
    forall x | x in s - {a[0].s} ensures exists i :: 0 <= i < |a[1..]| && a[1..][i].s == x {
      var i :| 0 <= i < |a| && a[i].s == x;
      assert a[1..][i - 1] == a[i];
    }
  }

  // ---------------------------------------------------------------- stage 1

  /** The signed contents of the verified lines. */
  function SignedIn(parse: Parser, lines: set<Line>): set<Signed>
  {
    set l | l in lines && parse(l).Good? :: parse(l).r.s
  }

  function LinesOf(lines: seq<Line>): set<Line>
  {
    set l | l in lines
  }

  /** Sorting a listing without repeats lists it. */
  lemma SortLists(rs: seq<Receipt>)
    requires forall i, j :: 0 <= i < j < |rs| ==> rs[i].s != rs[j].s
    ensures Lists(Sort(ReceiptLeq, rs), set r | r in rs :: r.s)
  {
    hide SignedLeq, ReceiptLeq, Sort;
    var out := Sort(ReceiptLeq, rs);
    var all := set r | r in rs :: r.s;
    SortedOnce(rs);
    SortElements(ReceiptLeq, rs);
    forall i | 0 <= i < |out| ensures out[i].s in all {
      assert out[i] in rs;
    }
    forall x | x in all ensures exists i :: 0 <= i < |out| && out[i].s == x {
      var r :| r in rs && r.s == x;
      assert r in out;
    }
  }

  lemma SortedOnce(rs: seq<Receipt>)
    requires forall i, j :: 0 <= i < j < |rs| ==> rs[i].s != rs[j].s
    ensures var out := Sort(ReceiptLeq, rs);
            forall i, j :: 0 <= i < j < |out| ==> SignedLeq(out[i].s, out[j].s) && out[i].s != out[j].s
  {
    SignedOrder();
    hide SignedLeq, Sort;
    var out := Sort(ReceiptLeq, rs);
    SortOrdered(ReceiptLeq, rs);
    SortElements(ReceiptLeq, rs);
    forall i, j | 0 <= i < j < |out| ensures out[i].s != out[j].s && SignedLeq(out[i].s, out[j].s) {
      assert ReceiptLeq(out[i], out[j]);
      if out[i].s == out[j].s {
        OnlyOnce(rs, out, i, j);
        assert false;
      }
    }
  }

  /** A repeat in the sorted sequence would be a repeat in the original. */
  lemma OnlyOnce(rs: seq<Receipt>, out: seq<Receipt>, i: nat, j: nat)
    requires multiset(out) == multiset(rs) && i < j < |out| && out[i].s == out[j].s
    ensures exists k, m :: 0 <= k < m < |rs| && rs[k].s == rs[m].s
  {
    if out[i] == out[j] {
      CountsTwice(out, i, j);
      TwiceAppears(rs, out[i]);
    } else {
      assert out[i] in multiset(rs) && out[j] in multiset(rs);
      var k :| 0 <= k < |rs| && rs[k] == out[i];
      var m :| 0 <= m < |rs| && rs[m] == out[j];
      if k < m {
        assert rs[k].s == rs[m].s;
      } else {
        assert rs[m].s == rs[k].s;
      }
    }
  }

  lemma CountsTwice<T>(s: seq<T>, i: nat, j: nat)
    requires i < j < |s| && s[i] == s[j]
    ensures multiset(s)[s[i]] >= 2
  {
    assert s == s[..j] + s[j..];
    assert s[..j][i] == s[i] && s[j..][0] == s[j];
    assert s[i] in multiset(s[..j]) && s[i] in multiset(s[j..]);
  }

  lemma {:induction false} TwiceAppears(s: seq<Receipt>, x: Receipt)
    requires multiset(s)[x] >= 2
    ensures exists k, m :: 0 <= k < m < |s| && s[k].s == s[m].s
    decreases |s|
  {
    var front, last := s[..|s| - 1], s[|s| - 1];
    assert s == front + [last];
    if last == x {
      assert x in front;
      var k :| 0 <= k < |front| && front[k] == x;
      assert s[k].s == s[|s| - 1].s;
    } else {
      TwiceAppears(front, x);
      var k, m :| 0 <= k < m < |front| && front[k].s == front[m].s;
      assert s[k].s == s[m].s;
    }
  }

  /** Each signed content of the lines once, in order, with the signature of the first line that carries it. */
  method VerifiedReceipts(parse: Parser, lines: seq<Line>) returns (out: seq<Receipt>)
    ensures Lists(out, SignedIn(parse, LinesOf(lines)))
    ensures forall r :: r in out ==> exists l :: l in lines && parse(l) == Good(r)
  {
    hide SignedLeq;
    var seen: set<Signed> := {};
    var kept: seq<Receipt> := [];
    for i := 0 to |lines|
      invariant seen == (set r | r in kept :: r.s) == SignedIn(parse, LinesOf(lines[..i]))
      invariant forall j, k :: 0 <= j < k < |kept| ==> kept[j].s != kept[k].s
      invariant forall r :: r in kept ==> exists l :: l in lines && parse(l) == Good(r)
    {
      LinesGrow(parse, lines, i);
      var p := parse(lines[i]);
      if p.Good? && p.r.s !in seen {
        seen := seen + {p.r.s};
        kept := kept + [p.r];
      }
    }
    assert lines[..|lines|] == lines;
    SortLists(kept);
    SortElements(ReceiptLeq, kept);
    out := Sort(ReceiptLeq, kept);
  }

  lemma LinesGrow(parse: Parser, lines: seq<Line>, i: nat)
    requires i < |lines|
    ensures SignedIn(parse, LinesOf(lines[..i + 1]))
            == SignedIn(parse, LinesOf(lines[..i])) + (if parse(lines[i]).Good? then {parse(lines[i]).r.s} else {})
  {
    assert lines[..i + 1] == lines[..i] + [lines[i]];
    assert LinesOf(lines[..i + 1]) == LinesOf(lines[..i]) + {lines[i]};
  }

  // ---------------------------------------------------------------- stage 2

  /** The contents that no other content of the same account and sequence number contradicts. */
  function Undisputed(s: set<Signed>): set<Signed>
  {
    set x | x in s && forall y :: y in s && y.account == x.account && y.seqNo == x.seqNo ==> y == x
  }

  function OfKey(rs: seq<Receipt>, k: (nat, int)): seq<Receipt>
  {
    if rs == [] then []
    else
      var front, r := OfKey(rs[..|rs| - 1], k), rs[|rs| - 1];
      if (r.s.account, r.s.seqNo) == k then front + [r] else front
  }

  lemma {:induction false} OfKeyIs(rs: seq<Receipt>, k: (nat, int))
    ensures forall r :: r in OfKey(rs, k) <==> r in rs && (r.s.account, r.s.seqNo) == k
    decreases |rs|
  {
    if rs != [] {
      OfKeyIs(rs[..|rs| - 1], k);
      assert rs == rs[..|rs| - 1] + [rs[|rs| - 1]];
    }
  }

  predicate SameSigned(rs: seq<Receipt>)
  {
    forall i :: 0 <= i < |rs| ==> rs[i].s == rs[0].s
  }

  function KeyOf(x: Signed): (nat, int)
  {
    (x.account, x.seqNo)
  }

  /** The versions of a key agree exactly when its content is undisputed. */
  lemma Dispute(rs: seq<Receipt>, s: set<Signed>, k: (nat, int))
    requires Lists(rs, s) && OfKey(rs, k) != []
    ensures var v := OfKey(rs, k);
            && v[0] in rs && KeyOf(v[0].s) == k
            && (forall x :: x in Undisputed(s) && KeyOf(x) == k <==> SameSigned(v) && x == v[0].s)
  {
    hide SignedLeq;
    OfKeyIs(rs, k);
    var v := OfKey(rs, k);
    assert v[0] in v;
    assert v[0].s in s;
    if SameSigned(v) {
      forall y | y in s && KeyOf(y) == k ensures y == v[0].s {
        VersionsAgree(rs, s, k, y);
      }
    } else {
      var i :| 0 <= i < |v| && v[i].s != v[0].s;
      assert v[i] in v && v[i].s in s;
    }
  }

  lemma VersionsAgree(rs: seq<Receipt>, s: set<Signed>, k: (nat, int), y: Signed)
    requires Lists(rs, s) && OfKey(rs, k) != [] && SameSigned(OfKey(rs, k)) && y in s && KeyOf(y) == k
    ensures y == OfKey(rs, k)[0].s
  {
    hide SignedLeq;
    OfKeyIs(rs, k);
    var i :| 0 <= i < |rs| && rs[i].s == y;
    assert rs[i] in OfKey(rs, k);
  }

  /** Every version of an equivocated sequence number is dropped; every other receipt stays. */
  method DedupeReceipts(rs: seq<Receipt>, ghost s: set<Signed>) returns (out: seq<Receipt>)
    requires Lists(rs, s)
    ensures Lists(out, Undisputed(s)) && forall r :: r in out ==> r in rs
  {
    hide SignedLeq, Lists, Undisputed;
    var byKey := GroupByKey(rs);
    var kept: seq<Receipt> := [];
    var rest := byKey.Keys;
    while rest != {}
      invariant rest <= byKey.Keys
      invariant forall r :: r in kept ==> r in rs && KeyOf(r.s) in byKey.Keys - rest && r.s in Undisputed(s)
      invariant forall i, j :: 0 <= i < j < |kept| ==> kept[i].s != kept[j].s
      invariant forall x :: x in Undisputed(s) && KeyOf(x) in byKey.Keys - rest ==> exists r :: r in kept && r.s == x
      decreases rest
    {
      var k :| k in rest;
      var versions := byKey[k];
      Dispute(rs, s, k);
      ghost var before := kept;
      if SameSigned(versions) {
        kept := kept + [versions[0]];
        assert versions[0] in kept;
      }
      forall x | x in Undisputed(s) && KeyOf(x) in byKey.Keys - (rest - {k}) ensures exists r :: r in kept && r.s == x {
        if KeyOf(x) != k {
          var r :| r in before && r.s == x;
          assert r in kept;
        }
      }
      rest := rest - {k};
    }
    UndisputedKept(rs, s, kept, byKey.Keys);
    SortLists(kept);
    SortElements(ReceiptLeq, kept);
    out := Sort(ReceiptLeq, kept);
  }

  lemma UndisputedKept(rs: seq<Receipt>, s: set<Signed>, kept: seq<Receipt>, keys: set<(nat, int)>)
    requires Lists(rs, s) && (forall r :: r in kept ==> r.s in Undisputed(s)) && (forall r :: r in rs ==> KeyOf(r.s) in keys)
    requires forall x :: x in Undisputed(s) && KeyOf(x) in keys ==> exists r :: r in kept && r.s == x
    ensures (set r | r in kept :: r.s) == Undisputed(s)
  {
    hide SignedLeq;
    forall x | x in Undisputed(s) ensures x in (set r | r in kept :: r.s) {
      var i :| 0 <= i < |rs| && rs[i].s == x;
      assert rs[i] in rs;
      var r :| r in kept && r.s == x;
    }
  }

  method GroupByKey(rs: seq<Receipt>) returns (byKey: map<(nat, int), seq<Receipt>>)
    ensures forall k :: k in byKey ==> byKey[k] == OfKey(rs, k) != []
    ensures forall r :: r in rs ==> KeyOf(r.s) in byKey
  {
    byKey := map[];
    for i := 0 to |rs|
      invariant forall k :: k in byKey ==> byKey[k] == OfKey(rs[..i], k) != []
      invariant forall k :: k !in byKey ==> OfKey(rs[..i], k) == []
      invariant forall j :: 0 <= j < i ==> KeyOf(rs[j].s) in byKey
    {
      var k := KeyOf(rs[i].s);
      assert rs[..i + 1][..i] == rs[..i];
      byKey := byKey[k := (if k in byKey then byKey[k] else []) + [rs[i]]];
    }
    assert rs[..|rs|] == rs;
  }

  /** Both stages: the undisputed receipts of the lines, in order. */
  method LoadReceipts(parse: Parser, lines: seq<Line>) returns (out: seq<Receipt>)
    ensures Lists(out, Undisputed(SignedIn(parse, LinesOf(lines))))
  {
    hide Lists, Undisputed;
    var stage1 := VerifiedReceipts(parse, lines);
    out := DedupeReceipts(stage1, SignedIn(parse, LinesOf(lines)));
  }

  // ---------------------------------------------------------------- what does not matter

  /**
   Permuting, repeating or re-signing lines changes nothing but signatures: only the set of signed contents
   matters.
   */
  lemma LoadIgnoresOrderAndSignatures(parse: Parser, xs: seq<Line>, ys: seq<Line>, a: seq<Receipt>, b: seq<Receipt>)
    requires SignedIn(parse, LinesOf(xs)) == SignedIn(parse, LinesOf(ys))
    requires Lists(a, Undisputed(SignedIn(parse, LinesOf(xs)))) && Lists(b, Undisputed(SignedIn(parse, LinesOf(ys))))
    ensures |a| == |b| && forall i :: 0 <= i < |a| ==> a[i].s == b[i].s
  {
    ListsAgree(a, b, Undisputed(SignedIn(parse, LinesOf(xs))));
  }

  /** A second version of a sequence number removes every version of it, and touches no other. */
  lemma EquivocationDropsAll(s: set<Signed>, x: Signed, y: Signed)
    requires x in s && y !in s && KeyOf(x) == KeyOf(y)
    ensures forall z :: z in Undisputed(s + {y}) <==> z in Undisputed(s) && KeyOf(z) != KeyOf(y)
  {
    forall z ensures z in Undisputed(s + {y}) <==> z in Undisputed(s) && KeyOf(z) != KeyOf(y) {
      if z in Undisputed(s + {y}) {
        assert y in s + {y} && x in s + {y};
      }
      if z in Undisputed(s) && KeyOf(z) != KeyOf(y) {
        forall v | v in s + {y} && KeyOf(v) == KeyOf(z) ensures v == z {
          assert v in s;
        }
      }
    }
  }

  // ---------------------------------------------------------------- files and lines

  /** The lines of a file that end in a newline. */
  function Complete(bytes: seq<char>): seq<Line>
  {
    if bytes == [] then []
    else
      var front := bytes[..|bytes| - 1];
      if bytes[|bytes| - 1] == '\n' then Complete(front) + [Tail(front)] else Complete(front)
  }

  /** What follows the last newline: a line still being written. */
  function Tail(bytes: seq<char>): (t: Line)
    ensures |t| <= |bytes|
  {
    if bytes == [] || bytes[|bytes| - 1] == '\n' then [] else Tail(bytes[..|bytes| - 1]) + [bytes[|bytes| - 1]]
  }

  lemma {:induction false} TailFits(bytes: seq<char>)
    ensures Tail(bytes[..|bytes| - |Tail(bytes)|]) == []
    ensures Complete(bytes[..|bytes| - |Tail(bytes)|]) == Complete(bytes)
    decreases |bytes|
  {
    if bytes != [] && bytes[|bytes| - 1] != '\n' {
      var front := bytes[..|bytes| - 1];
      TailFits(front);
      assert bytes[..|bytes| - |Tail(bytes)|] == front[..|front| - |Tail(front)|];
    } else {
      assert bytes[..|bytes|] == bytes;
    }
  }

  /** Reading on from the end of a line gives the lines that were appended. */
  lemma {:induction false} CompleteSplits(a: seq<char>, b: seq<char>)
    requires Tail(a) == []
    ensures Complete(a + b) == Complete(a) + Complete(b) && Tail(a + b) == Tail(b)
    decreases |b|
  {
    if b == [] {
      assert a + b == a;
    } else {
      var front := b[..|b| - 1];
      CompleteSplits(a, front);
      assert (a + b)[..|a + b| - 1] == a + front;
    }
  }

  /** Appending keeps the complete lines. */
  lemma {:induction false} CompleteGrows(a: seq<char>, b: seq<char>)
    ensures |Complete(a)| <= |Complete(a + b)| && Complete(a) == Complete(a + b)[..|Complete(a)|]
    decreases |b|
  {
    if b == [] {
      assert a + b == a;
    } else {
      CompleteGrows(a, b[..|b| - 1]);
      assert (a + b)[..|a + b| - 1] == a + b[..|b| - 1];
    }
  }
}
