/**
 The first block at or after a time (sn89_signals/chain.py:610-627): from an estimate, step back until a block
 before the time is found, then bisect.
 */
module BlockSearch {

  datatype Outcome = Found(block: int) | AfterHead

  ghost predicate NonDecreasing(time: int -> int)
  {
    forall b, c :: b <= c ==> time(b) <= time(c)
  }

  /** The least block of the chain, which starts at 1, whose time is at or after `t`. */
  ghost predicate IsFirst(time: int -> int, head: int, t: int, b: int)
  {
    1 <= b <= head && t <= time(b) && forall c :: 1 <= c < b ==> time(c) < t
  }

  function Larger(x: int, y: int): int
  {
    if x < y then y else x
  }

  const BLOCK_MS := 12000

  /**
   The search returns the first block exactly when the first block of the chain is itself before the time, or is
   the only one: it never looks at block 1 as an answer. It refuses exactly the times after the head.
   */
  method BlockAtOrAfter(time: int -> int, head: int, t: int) returns (r: Outcome)
    requires NonDecreasing(time) && 1 <= head
    ensures r == AfterHead <==> time(head) < t
    ensures r.Found? ==> (IsFirst(time, head, t, r.block) <==> (time(1) < t || head == 1))
    ensures r.Found? && t <= time(1) ==> r.block == if head == 1 then 1 else 2
  {
    var hi := head;
    var th := time(hi);
    if th < t {
      return AfterHead;
    }
    var lo := Larger(1, hi - (th - t) / BLOCK_MS - 600);
    while lo > 1 && time(lo) >= t
      invariant 1 <= lo <= hi && t <= time(hi)
      decreases lo
    {
      lo := Larger(1, lo - 7200);
    }
    while hi - lo > 1
      invariant 1 <= lo <= hi <= head && t <= time(hi)
      invariant lo == hi ==> head == 1
      invariant time(lo) < t || lo == 1
      decreases hi - lo
    {
      var mid := (lo + hi) / 2;
      if time(mid) >= t {
        hi := mid;
      } else {
        lo := mid;
      }
    }
    r := Found(hi);
  }
}
