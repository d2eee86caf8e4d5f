/**
 The incremental index of agent receipts (sn89_signals/agent_books_io.py:195-239). The intake appends to its files;
 each refresh reads only what was appended since the last one, up to the last complete line.
 */
module AgentReceiptIndex {
  import opened Sorting
  import opened AgentReceipts

  type Files = map<string, seq<char>>

  /** The files only grow. */
  ghost predicate Appended(before: Files, after: Files)
  {
    forall n :: n in before ==> n in after && before[n] <= after[n]
  }

  /** Every complete line of every file. */
  function AllLines(files: Files): set<Line>
  {
    set n, l | n in files && l in Complete(files[n]) :: l
  }

  /** The lines read so far: the complete lines of each file up to its offset. */
  ghost function ReadLines(files: Files, off: map<string, nat>): set<Line>
    requires OffsetsOk(files, off)
  {
    set n, l | n in off && l in Complete(files[n][..off[n]]) :: l
  }

  /** Offsets lie inside the files, at the end of a line. */
  ghost predicate OffsetsOk(files: Files, off: map<string, nat>)
  {
    forall n :: n in off ==> n in files && off[n] <= |files[n]| && Tail(files[n][..off[n]]) == []
  }

  /** The receipts of a window among the signed contents. */
  function OfWindow(s: set<Signed>, w: int): set<Signed>
  {
    set x | x in s && WindowOf(x.tRecv) == w
  }

  type Filed = map<int, map<Signed, Receipt>>

  function Window(byWindow: Filed, w: int): map<Signed, Receipt>
  {
    if w in byWindow then byWindow[w] else map[]
  }

  /** The windows from `floor` on hold exactly the receipts read, each under what it signs. */
  ghost predicate FiledOk(byWindow: Filed, s: set<Signed>, floor: int)
  {
    && (forall w :: floor <= w ==> Window(byWindow, w).Keys == OfWindow(s, w))
    && (forall w, x :: x in Window(byWindow, w) ==> Window(byWindow, w)[x].s == x)
  }

  class Index {
    const parse: Parser
    var off: map<string, nat>
    var byWindow: Filed
    /** Windows before this one may have been pruned. */
    ghost var floor: int

    constructor (parse: Parser, files: Files, ghost floor: int)
      ensures Valid(files) && this.parse == parse && this.floor == floor
    {
      this.parse := parse;
      off, byWindow := map[], map[];
      this.floor := floor;
    }

    ghost predicate Valid(files: Files)
      reads this
    {
      OffsetsOk(files, off) && FiledOk(byWindow, SignedIn(parse, ReadLines(files, off)), floor)
    }

    /** Reads what was appended to the files since the last call. */
    method Refresh(files: Files)
      requires Valid(files)
      modifies this`off, this`byWindow
      ensures Valid(files)
      ensures ReadLines(files, off) == AllLines(files)
    {
      hide FiledOk, OffsetsOk, SignedIn, Complete;
      var rest := files.Keys;
      while rest != {}
        invariant rest <= files.Keys && Valid(files)
        invariant forall n :: n in files && n !in rest ==> Current(files, off, n)
        decreases rest
      {
        var n :| n in rest;
        RefreshFile(files, n);
        rest := rest - {n};
      }
      AllRead(files, off);
    }

    method RefreshFile(files: Files, n: string)
      requires Valid(files) && n in files
      modifies this`off, this`byWindow
      ensures Valid(files) && Current(files, off, n)
      ensures forall m :: m in files && m != n && old(Current(files, off, m)) ==> Current(files, off, m)
    {
      hide FiledOk, SignedIn, Complete, Tail, ReadLines, LinesOf;
      var bytes := files[n];
      var start := if n in off then off[n] else 0;
      if |bytes| < start {
        start := 0;
      }
      StartIsLineEnd(bytes, start);
      var chunk := bytes[start..];
      var tail := Tail(chunk);
      TailFits(chunk);
      ghost var read := ReadLines(files, off);
      ReadOn(files, off, n, start);
      if |tail| == |chunk| {
        return;
      }
      var lines := Complete(chunk);
      FileLines(lines, read);
      off := off[n := start + |chunk| - |tail|];
    }

    /** Files the receipts of the lines, the last version of each kept. */
    method FileLines(lines: seq<Line>, ghost read: set<Line>)
      requires FiledOk(byWindow, SignedIn(parse, read), floor)
      modifies this`byWindow
      ensures FiledOk(byWindow, SignedIn(parse, read + LinesOf(lines)), floor)
    {
      hide FiledOk;
      NoLines(parse, read);
      for i := 0 to |lines|
        invariant FiledOk(byWindow, SignedIn(parse, read + LinesOf(lines[..i])), floor)
      {
        var p := parse(lines[i]);
        OneLine(parse, read, lines, i);
        if p.Good? {
          var w := WindowOf(p.r.s.tRecv);
          FileOne(byWindow, SignedIn(parse, read + LinesOf(lines[..i])), floor, p.r);
          byWindow := byWindow[w := Window(byWindow, w)[p.r.s := p.r]];
        } else {
          assert SignedIn(parse, read + LinesOf(lines[..i])) + {} == SignedIn(parse, read + LinesOf(lines[..i]));
        }
      }
      assert lines[..|lines|] == lines;
    }

    /** The receipts of a window in order. */
    method WindowReceipts(files: Files, w: int) returns (rs: seq<Receipt>)
      requires Valid(files) && floor <= w
      ensures Lists(rs, OfWindow(SignedIn(parse, ReadLines(files, off)), w))
    {
      hide SignedLeq, SignedIn;
      var filed := Window(byWindow, w);
      var found: seq<Receipt> := [];
      var rest := filed.Keys;
      while rest != {}
        invariant rest <= filed.Keys && (set r | r in found :: r.s) == filed.Keys - rest
        invariant forall i, j :: 0 <= i < j < |found| ==> found[i].s != found[j].s
        decreases rest
      {
        var x :| x in rest;
        FoundOne(found, filed[x]);
        found := found + [filed[x]];
        rest := rest - {x};
      }
      SortLists(found);
      assert (set r | r in found :: r.s) == OfWindow(SignedIn(parse, ReadLines(files, off)), w);
      rs := Sort(ReceiptLeq, found);
    }

    /** Windows that ended long ago are dropped. */
    method Prune(files: Files, before: int)
      requires Valid(files)
      modifies this`byWindow, this`floor
      ensures Valid(files) && floor == if old(floor) < before then before else old(floor)
    {
      hide SignedIn, WindowOf, FiledOk;
      PruneKeeps(byWindow, SignedIn(parse, ReadLines(files, off)), floor, before);
      byWindow := map w | w in byWindow && before <= w :: byWindow[w];
      floor := if floor < before then before else floor;
    }
  }

  lemma FoundOne(found: seq<Receipt>, r: Receipt)
    ensures (set x | x in found + [r] :: x.s) == (set x | x in found :: x.s) + {r.s}
  {
    assert forall x :: x in found + [r] <==> x in found || x == r;
  }

  lemma PruneKeeps(byWindow: Filed, s: set<Signed>, floor: int, before: int)
    requires FiledOk(byWindow, s, floor)
    ensures FiledOk(map w | w in byWindow && before <= w :: byWindow[w], s, if floor < before then before else floor)
  {
    hide OfWindow;
    var n := map w | w in byWindow && before <= w :: byWindow[w];
    forall w | before <= w ensures Window(n, w) == Window(byWindow, w) {
    }
  }

  /** The file is read up to its last complete line. */
  ghost predicate Current(files: Files, off: map<string, nat>, n: string)
    requires n in files
  {
    Complete(files[n]) == (if n in off && off[n] <= |files[n]| then Complete(files[n][..off[n]]) else [])
  }

  lemma AllRead(files: Files, off: map<string, nat>)
    requires OffsetsOk(files, off) && forall n :: n in files ==> Current(files, off, n)
    ensures ReadLines(files, off) == AllLines(files)
  {
    hide Complete;
    forall l | l in AllLines(files) ensures l in ReadLines(files, off) {
      var n :| n in files && l in Complete(files[n]);
      assert Current(files, off, n);
    }
    forall l | l in ReadLines(files, off) ensures l in AllLines(files) {
      var n :| n in off && l in Complete(files[n][..off[n]]);
      assert Current(files, off, n);
    }
  }

  lemma StartIsLineEnd(bytes: seq<char>, start: nat)
    requires start <= |bytes|
    ensures bytes == bytes[..start] + bytes[start..] && Tail([]) == [] && Complete([]) == [] && bytes[..0] == []
  {
  }

  /** Reading a file on from the end of a line, up to its last complete line. */
  lemma ReadOnFile(bytes: seq<char>, start: nat)
    requires start <= |bytes| && Tail(bytes[..start]) == []
    ensures var chunk := bytes[start..];
            var end := start + |chunk| - |Tail(chunk)|;
            && Complete(bytes[..end]) == Complete(bytes[..start]) + Complete(chunk) == Complete(bytes)
            && Tail(bytes[..end]) == []
            && (|Tail(chunk)| == |chunk| ==> Complete(chunk) == [])
  {
    var chunk := bytes[start..];
    var read := chunk[..|chunk| - |Tail(chunk)|];
    TailFits(chunk);
    assert bytes[..start + |read|] == bytes[..start] + read;
    assert bytes == bytes[..start] + chunk;
    CompleteSplits(bytes[..start], read);
    CompleteSplits(bytes[..start], chunk);
  }

  /** Moving a file's offset to the end of its last complete line reads the lines in between. */
  lemma ReadOn(files: Files, off: map<string, nat>, n: string, start: nat)
    requires OffsetsOk(files, off) && n in files && start == (if n in off then off[n] else 0)
    ensures var chunk := files[n][start..];
            var end := start + |chunk| - |Tail(chunk)|;
            var next := off[n := end];
            && OffsetsOk(files, next) && ReadLines(files, next) == ReadLines(files, off) + LinesOf(Complete(chunk))
            && Current(files, next, n)
            && (|Tail(chunk)| == |chunk| ==> Current(files, off, n))
  {
    hide Complete, Tail, ReadLines;
    var bytes := files[n];
    StartIsLineEnd(bytes, start);
    ReadOnFile(bytes, start);
    var chunk := bytes[start..];
    var next := off[n := start + |chunk| - |Tail(chunk)|];
    LinesAdded(files, off, next, n, Complete(chunk));
  }

  lemma LinesAdded(files: Files, off: map<string, nat>, next: map<string, nat>, n: string, more: seq<Line>)
    requires OffsetsOk(files, off) && OffsetsOk(files, next) && n in files && n in next && next == off[n := next[n]]
    requires Complete(files[n][..next[n]]) == (if n in off then Complete(files[n][..off[n]]) else []) + more
    ensures ReadLines(files, next) == ReadLines(files, off) + LinesOf(more)
  {
    hide Complete, Tail;
    forall l | l in ReadLines(files, next) ensures l in ReadLines(files, off) + LinesOf(more) {
      var m :| m in next && l in Complete(files[m][..next[m]]);
    }
    forall l | l in ReadLines(files, off) + LinesOf(more) ensures l in ReadLines(files, next) {
      if l in LinesOf(more) {
        assert l in Complete(files[n][..next[n]]);
      } else {
        var m :| m in off && l in Complete(files[m][..off[m]]);
        assert l in Complete(files[m][..next[m]]);
      }
    }
  }

  lemma NoLines(parse: Parser, read: set<Line>)
    ensures read + LinesOf([]) == read
  {
  }

  lemma OneLine(parse: Parser, read: set<Line>, lines: seq<Line>, i: nat)
    requires i < |lines|
    ensures SignedIn(parse, read + LinesOf(lines[..i + 1]))
            == SignedIn(parse, read + LinesOf(lines[..i])) + (if parse(lines[i]).Good? then {parse(lines[i]).r.s} else {})
  {
    assert lines[..i + 1] == lines[..i] + [lines[i]];
    assert read + LinesOf(lines[..i + 1]) == read + LinesOf(lines[..i]) + {lines[i]};
  }

  lemma FileOne(byWindow: Filed, s: set<Signed>, floor: int, r: Receipt)
    requires FiledOk(byWindow, s, floor)
    ensures var w := WindowOf(r.s.tRecv);
            FiledOk(byWindow[w := Window(byWindow, w)[r.s := r]], s + {r.s}, floor)
  {
    hide WindowOf;
    var w := WindowOf(r.s.tRecv);
    var n := byWindow[w := Window(byWindow, w)[r.s := r]];
    forall v ensures Window(n, v) == if v == w then Window(byWindow, w)[r.s := r] else Window(byWindow, v) {
    }
    forall v | floor <= v ensures Window(n, v).Keys == OfWindow(s + {r.s}, v) {
      OneMore(s, r.s, v);
      assert Window(byWindow, v).Keys == OfWindow(s, v);
    }
    forall v, x | x in Window(n, v) ensures Window(n, v)[x].s == x {
      assert x in Window(byWindow, v) || x == r.s;
    }
  }

  lemma OneMore(s: set<Signed>, x: Signed, w: int)
    ensures OfWindow(s + {x}, w) == OfWindow(s, w) + (if WindowOf(x.tRecv) == w then {x} else {})
  {
  }

  // ---------------------------------------------------------------- appends

  /** Appending to the files, torn lines included, leaves what was read as it is. */
  lemma AppendKeepsRead(before: Files, after: Files, off: map<string, nat>)
    requires OffsetsOk(before, off) && Appended(before, after)
    ensures OffsetsOk(after, off) && ReadLines(after, off) == ReadLines(before, off)
  {
    hide Complete, Tail;
    forall n | n in off ensures n in after && off[n] <= |after[n]| && after[n][..off[n]] == before[n][..off[n]] {
      assert before[n] <= after[n];
    }
    SameRead(before, after, off);
  }

  lemma SameRead(before: Files, after: Files, off: map<string, nat>)
    requires OffsetsOk(before, off) && forall n :: n in off ==> n in after && off[n] <= |after[n]| && after[n][..off[n]] == before[n][..off[n]]
    ensures OffsetsOk(after, off) && ReadLines(after, off) == ReadLines(before, off)
  {
    hide Complete, Tail;
  }

  /** So the index stays valid while the files grow. */
  lemma ValidAfterAppend(index: Index, before: Files, after: Files)
    requires index.Valid(before) && Appended(before, after)
    ensures index.Valid(after) && ReadLines(after, index.off) == ReadLines(before, index.off)
  {
    hide FiledOk, OffsetsOk, ReadLines, Appended;
    AppendKeepsRead(before, after, index.off);
  }

  /** The batch loader's receipts of one window. */
  lemma {:induction false} BatchWindow(rs: seq<Receipt>, s: set<Signed>, w: int)
    requires Lists(rs, s)
    ensures Lists(Filter((r: Receipt) => WindowOf(r.s.tRecv) == w, rs), OfWindow(s, w))
  {
    hide SignedLeq, WindowOf;
    var keep := (r: Receipt) => WindowOf(r.s.tRecv) == w;
    var f := Filter(keep, rs);
    FilterElements(keep, rs);
    FilterOrdered(Before, keep, rs);
    forall i | 0 <= i < |f| ensures f[i].s in OfWindow(s, w) {
      assert f[i] in f;
    }
    forall x | x in OfWindow(s, w) ensures exists i :: 0 <= i < |f| && f[i].s == x {
      var i :| 0 <= i < |rs| && rs[i].s == x;
      assert rs[i] in f;
    }
    forall i, j | 0 <= i < j < |f| ensures SignedLeq(f[i].s, f[j].s) && f[i].s != f[j].s {
      assert Before(f[i], f[j]);
    }
  }

  predicate Before(x: Receipt, y: Receipt)
  {
    SignedLeq(x.s, y.s) && x.s != y.s
  }

  /**
   After a refresh the index gives, for every window still kept, the receipts the batch loader finds in all the
   complete lines, in the same order and up to signatures.
   */
  method IndexAgreesWithBatch(index: Index, files: Files, lines: seq<Line>, w: int) returns (a: seq<Receipt>, b: seq<Receipt>)
    requires index.Valid(files) && index.floor <= w && LinesOf(lines) == AllLines(files)
    modifies index`off, index`byWindow
    ensures |a| == |b| && forall i :: 0 <= i < |a| ==> a[i].s == b[i].s
  {
    hide FiledOk, OffsetsOk, SignedIn, Lists, WindowOf;
    index.Refresh(files);
    a := index.WindowReceipts(files, w);
    var batch := VerifiedReceipts(index.parse, lines);
    b := Filter((r: Receipt) => WindowOf(r.s.tRecv) == w, batch);
    BatchWindow(batch, SignedIn(index.parse, AllLines(files)), w);
    ListsAgree(a, b, OfWindow(SignedIn(index.parse, AllLines(files)), w));
  }
}
