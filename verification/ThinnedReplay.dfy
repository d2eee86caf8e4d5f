/**
 The pipeline that publishes book results: thin the shards once for every account, slice per account,
 replay each slice (sn89_signals/agent_books_io.py, replay_all). Its results are those of replaying each
 account over the full stream.
 */
module ThinnedReplay {
  import opened Wrappers
  import opened AgentBooks
  import opened Sorting
  import opened TickSimulation
  import opened TickThinning
  import opened TickShards
  import opened ThinPass
  import opened ThinRange
  import opened BookSlice
  import opened BookReplay

  /** The result of replaying one account over a tick stream. */
  ghost function ReplayOver(env: Env, receipts: seq<Receipt>, account: Account, tk: seq<Tick>, end: int): Result
  {
    ResultOf(Run(env, AccountReceipts(receipts, account), tk, end))
  }

  lemma OfAccountElements(receipts: seq<Receipt>, account: Account)
    ensures forall r :: r in OfAccount(receipts, account) <==> r in receipts && r.account == account
    ensures forall r :: r in AccountReceipts(receipts, account) <==> r in receipts && r.account == account
    ensures ReceiptsSorted(AccountReceipts(receipts, account))
  {
    FilterElements((r: Receipt) => r.account == account, receipts);
    SortedByTime(OfAccount(receipts, account));
  }

  /** A slice depends on which receipts the account has, not on their order. */
  lemma SliceOfSameReceipts(env: Env, a: seq<Receipt>, b: seq<Receipt>, tk: seq<Tick>, end: int)
    requires forall r :: r in a <==> r in b
    ensures SliceStream(env, a, tk, end) == SliceStream(env, b, tk, end)
  {
    hide FirstSince, AtLastTimeBefore, Touches, Keys;
    forall f ensures FillTime(env.rules.fillDelay, a, tk, end, f) <==> FillTime(env.rules.fillDelay, b, tk, end, f) {
    }
    forall p ensures TouchedBy(env, a, p) <==> TouchedBy(env, b, p) {
    }
    SameFillTimesSameSlice(env, a, b, tk, end);
  }

  lemma SameFillTimesSameSlice(env: Env, a: seq<Receipt>, b: seq<Receipt>, tk: seq<Tick>, end: int)
    requires forall f :: FillTime(env.rules.fillDelay, a, tk, end, f) <==> FillTime(env.rules.fillDelay, b, tk, end, f)
    requires forall p :: TouchedBy(env, a, p) <==> TouchedBy(env, b, p)
    ensures SliceStream(env, a, tk, end) == SliceStream(env, b, tk, end)
  {
    hide FillTime, TouchedBy, AtLastTimeBefore, ReadTime;
    forall t ensures MarkTime(env, a, tk, end, t) <==> MarkTime(env, b, tk, end, t) {
    }
    hide MarkTime;
    forall j | 0 <= j < |tk| ensures Selected(env, a, tk, end, j) <==> Selected(env, b, tk, end, j) {
    }
    assert SelectedIndices(env, a, tk, end) == SelectedIndices(env, b, tk, end);
  }

  lemma SliceSorted(env: Env, rs: seq<Receipt>, tk: seq<Tick>, end: int)
    requires TicksSorted(tk)
    ensures TicksSorted(SliceStream(env, rs, tk, end))
  {
    SubSorted(tk, SelectedIndices(env, rs, tk, end), 0);
  }

  /** Every account of the receipts, each over its own slice. */
  method ReplayAll(env: Env, receipts: seq<Receipt>, idx: PairIndex, end: int) returns (out: map<Account, Result>)
    requires idx.Valid()
    ensures forall a :: a in out <==> exists r :: r in receipts && r.account == a
    ensures forall a :: a in out ==>
              out[a] == ReplayOver(env, receipts, a, SliceStream(env, AccountReceipts(receipts, a), idx.ticks, end), end)
  {
    hide ReplayOver, SliceStream, AccountReceipts, OfAccount;
    out := map[];
    var accounts := set r | r in receipts :: r.account;
    var todo := accounts;
    while todo != {}
      invariant todo <= accounts
      invariant forall a :: a in out <==> a in accounts - todo
      invariant forall a :: a in out ==>
                  out[a] == ReplayOver(env, receipts, a, SliceStream(env, AccountReceipts(receipts, a), idx.ticks, end), end)
      decreases todo
    {
      var acct := Least(todo);
      var rs := OfAccount(receipts, acct);
      var tk := BookTicks(env, rs, idx, end);
      OfAccountElements(receipts, acct);
      SliceOfSameReceipts(env, rs, AccountReceipts(receipts, acct), idx.ticks, end);
      SliceSorted(env, rs, idx.ticks, end);
      var res := ReplayBook(env, acct, receipts, tk, end);
      assert res == ReplayOver(env, receipts, acct, tk, end) by {
        ReplayOverIs(env, receipts, acct, tk, end);
      }
      out := out[acct := res];
      todo := todo - {acct};
    }
  }

  lemma ReplayOverIs(env: Env, receipts: seq<Receipt>, account: Account, tk: seq<Tick>, end: int)
    ensures ReplayOver(env, receipts, account, tk, end) == ResultOf(Run(env, AccountReceipts(receipts, account), tk, end))
  {
  }

  // ---------------------------------------------------------------- exactness

  /** The replay starts at a UTC midnight and ends where a tick window ends. */
  predicate Aligned(start: int, end: int)
  {
    start % DAY_MS == 0 && (end % WINDOW_MS == 0 || end % WINDOW_MS == WINDOW_MS - 1)
  }

  lemma AlignedStreamInside(read: Reader, start: int, end: int)
    requires WellSharded(read) && Aligned(start, end)
    ensures var tk := FullStream(read, start, end);
            TicksSorted(tk) && forall k :: 0 <= k < |tk| ==> start <= tk[k].t <= end
  {
    hide FullStream, ReadEnd;
    FullStreamOrdered(read, start, end);
    if start <= end {
      assert start % WINDOW_MS == 0 by {
        assert start == start / DAY_MS * 480 * WINDOW_MS;
      }
      ReadEndOnGrid(start, end);
      AlignedReadEnd(ReadEnd(start, end), end);
    } else {
      NothingToRead(read, start, end);
    }
  }

  lemma NothingToRead(read: Reader, start: int, end: int)
    requires end < start
    ensures FullStream(read, start, end) == []
  {
  }

  lemma AlignedReadEnd(e: int, end: int)
    requires e % WINDOW_MS == 0 && end <= e < end + WINDOW_MS
    requires end % WINDOW_MS == 0 || end % WINDOW_MS == WINDOW_MS - 1
    ensures e <= end + 1
  {
    var x, q, m := e / WINDOW_MS, end / WINDOW_MS, end % WINDOW_MS;
    assert e == x * WINDOW_MS && end == q * WINDOW_MS + m;
    if m == 0 {
      assert x < q + 1;
    } else {
      assert x < q + 2;
    }
  }

  /** For every aligned replay the slice of the union thin replays to the full stream's result. */
  lemma AlignedIsExact(env: Env, receipts: seq<Receipt>, account: Account, read: Reader, end: int)
    requires WellSharded(read) && Aligned(env.start, end)
    ensures var thin := RangeThin(env, Sort(ReceiptLeq, receipts), read, DayStart(env.start), end);
            ReplayOver(env, receipts, account, SliceStream(env, AccountReceipts(receipts, account), thin, end), end)
            == ReplayOver(env, receipts, account, FullStream(read, env.start, end), end)
  {
    hide Run, ResultOf, FullStream, ThinStream, TouchedStream, SliceStream, Aligned, AccountReceipts, OfAccount, Sort;
    AlignedStart(env.start, end);
    AlignedStreamInside(read, env.start, end);
    OfAccountElements(receipts, account);
    SortedByTime(receipts);
    ThinnedReplayIsExact(env, Sort(ReceiptLeq, receipts), AccountReceipts(receipts, account),
                         FullStream(read, env.start, end), end);
  }

  lemma AlignedStart(start: int, end: int)
    requires Aligned(start, end)
    ensures DayStart(start) == start
  {
  }

  lemma RangeThinSorted(env: Env, all: seq<Receipt>, read: Reader, from: int, end: int)
    requires WellSharded(read)
    ensures TicksSorted(RangeThin(env, all, read, from, end))
  {
    hide FullStream, TouchedIndices, WantedIndices;
    FullStreamOrdered(read, from, end);
    var full := FullStream(read, from, end);
    SubSorted(full, TouchedIndices(env, all, full), 0);
    var touched := TouchedStream(env, all, full);
    SubSorted(touched, WantedIndices(env.rules.fillDelay, all, touched), 0);
  }

  /** Thin, slice and replay every account. For an aligned replay every published result is the result of the
      account's replay over the full stream. */
  method ReplayRange(env: Env, receipts: seq<Receipt>, read: Reader, end: int)
    returns (out: map<Account, Result>, missing: seq<int>)
    requires WellSharded(read)
    ensures forall a :: a in out <==> exists r :: r in receipts && r.account == a
    ensures Aligned(env.start, end) ==>
              forall a :: a in out ==> out[a] == ReplayOver(env, receipts, a, FullStream(read, env.start, end), end)
    ensures missing == MissingWindows(read, DayStart(env.start), end)
  {
    hide ReplayOver, SliceStream, RangeThin, FullStream, AccountReceipts, Sort, Aligned;
    var ticks;
    ticks, missing := LoadThinRange(env, receipts, read, end);
    RangeThinSorted(env, Sort(ReceiptLeq, receipts), read, DayStart(env.start), end);
    var idx := new PairIndex(ticks);
    out := ReplayAll(env, receipts, idx, end);
    if Aligned(env.start, end) {
      forall a | a in out ensures out[a] == ReplayOver(env, receipts, a, FullStream(read, env.start, end), end) {
        AlignedIsExact(env, receipts, a, read, end);
      }
    }
  }
}
