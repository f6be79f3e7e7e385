/** The hot-markets carousel: five cards around the current market, which
    advances on a timer until an arrow is clicked, and moves one step either
    way on the arrows, wrapping at both ends. */
module HotMarkets {
  import opened Common

  /** `markets[i]`: undefined outside the list. */
  function At<M>(markets: seq<M>, i: int): (m: Option<M>)
    ensures m.Some? <==> 0 <= i < |markets|
    ensures m.Some? ==> m.value == markets[i]
  {
    if 0 <= i < |markets| then Some(markets[i]) else None
  }

  /** The card k places after the current one (k = -1 is the one before,
      k = 0 the current one): the list is wrapped once, from the end back to
      the start or from the start back to the end. */
  function Slot<M>(markets: seq<M>, current: int, k: int): (card: Option<M>)
    ensures card.Some? ==> card.value in markets
    ensures 4 <= |markets| && 0 <= current < |markets| && -1 <= k <= 3 ==> card.Some?
  {
    if k < 0 then
      At(markets, if current - 1 < 0 then |markets| - 1 else current - 1)
    else if k == 0 then
      At(markets, current)
    else
      At(markets, if current + k > |markets| - 1 then current + k - |markets| else current + k)
  }

  /** `currentMarkets`: the market before the current one, the current one,
      and the three after it. */
  method CurrentMarkets<M>(markets: seq<M>, current: int) returns (window: seq<Option<M>>)
    ensures |window| == 5
    ensures forall i :: 0 <= i < 5 ==> window[i] == Slot(markets, current, i - 1)
  {
    window := [];
    window := window + [Slot(markets, current, -1)];
    window := window + [At(markets, current)];
    for index := 1 to 4
      invariant |window| == index + 1
      invariant forall i :: 0 <= i < |window| ==> window[i] == Slot(markets, current, i - 1)
    {
      window := window + [At(markets, if current + index > |markets| - 1 then current + index - |markets| else current + index)];
    }
  }

  /** With at least four markets, slot k holds the market k places from the
      current one, counted round the list. */
  lemma SlotIsModular<M>(markets: seq<M>, current: int, k: int)
    requires |markets| >= 4 && 0 <= current < |markets| && -1 <= k <= 3
    ensures Slot(markets, current, k) == Some(markets[(current + k) % |markets|])
  {
    var n := |markets|;
    if k < 0 {
      if current == 0 {
        assert (current + k) % n == n - 1;
      }
    } else if current + k > n - 1 {
      assert (current + k) % n == current + k - n;
    }
  }

  /** With fewer than four markets the list is wrapped only once, so some
      cards are undefined: a single market fills only three of the five. */
  lemma SingleMarketLeavesGaps<M>(m: M)
    ensures Slot([m], 0, -1) == Slot([m], 0, 0) == Slot([m], 0, 1) == Some(m)
    ensures Slot([m], 0, 2) == None && Slot([m], 0, 3) == None
  {
  }

  /** The next market, wrapping from the last to the first. */
  function NextIndex(current: int, count: nat): (next: int)
    ensures 0 <= current < count ==> 0 <= next < count
  {
    if current == count - 1 then 0 else current + 1
  }

  /** The previous market, wrapping from the first to the last. */
  function PrevIndex(current: int, count: nat): (prev: int)
    ensures 0 <= current < count ==> 0 <= prev < count
  {
    if current == 0 then count - 1 else current - 1
  }

  /** Both arrows keep the index on the list and step it round the list. */
  lemma StepsStayOnList(current: int, count: nat)
    requires 0 <= current < count
    ensures 0 <= NextIndex(current, count) < count && NextIndex(current, count) == (current + 1) % count
    ensures 0 <= PrevIndex(current, count) < count && PrevIndex(current, count) == (current - 1) % count
  {
  }

  /** Back after forward, and forward after back, return to where they
      started. */
  lemma StepsAreInverse(current: int, count: nat)
    requires 0 <= current < count
    ensures PrevIndex(NextIndex(current, count), count) == current
    ensures NextIndex(PrevIndex(current, count), count) == current
  {
  }

  /** The index after `steps` clicks of the right arrow (or timer ticks). */
  function Forward(current: int, count: nat, steps: nat): int
  {
    if steps == 0 then current else NextIndex(Forward(current, count, steps - 1), count)
  }

  /** They land `steps` places on, counted round the list. */
  lemma {:induction false} ForwardIsModular(current: int, count: nat, steps: nat)
    requires 0 <= current < count
    ensures Forward(current, count, steps) == (current + steps) % count
  {
    if steps > 0 {
      ForwardIsModular(current, count, steps - 1);
      var before := Forward(current, count, steps - 1);
      StepsStayOnList(before, count);
      ModStep(current + steps - 1, count);
    }
  }

  lemma ModStep(a: int, count: nat)
    requires count > 0
    ensures (a % count + 1) % count == (a + 1) % count
  {
    var q, r := a / count, a % count;
    if r + 1 < count {
      ModUnique(a + 1, count, q, r + 1);
      ModUnique(r + 1, count, 0, r + 1);
    } else {
      ModUnique(a + 1, count, q + 1, 0);
      ModUnique(r + 1, count, 1, 0);
    }
  }

  /** The remainder is the one r with x = q * count + r and 0 <= r < count. */
  lemma ModUnique(x: int, count: nat, q: int, r: int)
    requires count > 0 && 0 <= r < count && x == q * count + r
    ensures x % count == r
  {
    var q', r' := x / count, x % count;
    assert (q - q') * count == r' - r;
    if q > q' {
      MulAtLeast(q - q', count);
    } else if q < q' {
      MulAtLeast(q' - q, count);
    }
  }

  lemma MulAtLeast(d: int, c: nat)
    requires d >= 1
    ensures d * c >= c
  {
    assert d * c == (d - 1) * c + c;
  }

  class Carousel<M> {
    const markets: seq<M>
    var currentMarket: int
    var shouldUseInterval: bool

    /** The index is on the list. */
    predicate Valid()
      reads this
    {
      0 <= currentMarket < |markets|
    }

    constructor(markets: seq<M>)
      requires |markets| > 0
      ensures Valid() && this.markets == markets && currentMarket == 0 && shouldUseInterval
    {
      this.markets := markets;
      currentMarket := 0;
      shouldUseInterval := true;
    }

    /** The timer: while no arrow has been clicked it moves to the next
        market. */
    method Tick()
      requires Valid()
      modifies this
      ensures Valid() && shouldUseInterval == old(shouldUseInterval)
      ensures currentMarket == if shouldUseInterval then (old(currentMarket) + 1) % |markets| else old(currentMarket)
    {
      StepsStayOnList(currentMarket, |markets|);
      if shouldUseInterval {
        currentMarket := NextIndex(currentMarket, |markets|);
      }
    }

    /** The right arrow: the timer stops for good and the next market is
        shown. */
    method Next()
      requires Valid()
      modifies this
      ensures Valid() && !shouldUseInterval
      ensures currentMarket == (old(currentMarket) + 1) % |markets|
    {
      StepsStayOnList(currentMarket, |markets|);
      shouldUseInterval := false;
      currentMarket := NextIndex(currentMarket, |markets|);
    }

    /** The left arrow: the timer stops for good and the previous market is
        shown. */
    method Prev()
      requires Valid()
      modifies this
      ensures Valid() && !shouldUseInterval
      ensures currentMarket == (old(currentMarket) - 1) % |markets|
    {
      StepsStayOnList(currentMarket, |markets|);
      shouldUseInterval := false;
      currentMarket := PrevIndex(currentMarket, |markets|);
    }
  }
}
