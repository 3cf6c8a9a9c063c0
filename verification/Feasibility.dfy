/** The fill-or-kill check sums level totals; this is what that sum is on the order list. */
module Feasibility {
  import opened Types
  import opened Reference
  import opened PriceLevels
  import opened Ticks
  import opened Halves
  import opened Books

  /** Sum of the totals of levels `lo` up to, not including, `hi`. */
  function RangeSum(levels: seq<PriceLevel>, lo: int, hi: int): nat
    requires 0 <= lo && hi <= |levels|
    decreases hi - lo
  {
    if lo >= hi then 0 else RangeSum(levels, lo, hi - 1) + levels[hi - 1].totalQty
  }

  lemma {:induction false} RangeJoin(levels: seq<PriceLevel>, lo: int, mid: int, hi: int)
    requires 0 <= lo <= mid <= hi <= |levels|
    ensures RangeSum(levels, lo, hi) == RangeSum(levels, lo, mid) + RangeSum(levels, mid, hi)
    decreases hi - mid
  {
    if mid < hi { RangeJoin(levels, lo, mid, hi - 1); }
  }

  lemma {:induction false} RangeZero(levels: seq<PriceLevel>, lo: int, hi: int)
    requires 0 <= lo && hi <= |levels|
    requires forall k :: lo <= k < hi ==> levels[k].totalQty == 0
    ensures RangeSum(levels, lo, hi) == 0
    decreases hi - lo
  {
    if lo < hi { RangeZero(levels, lo, hi - 1); }
  }

  lemma {:induction false} CrossableConcat(a: seq<Resting>, b: seq<Resting>, side: Side, limit: Option<int>)
    ensures Crossable(a + b, side, limit) == Crossable(a, side, limit) + Crossable(b, side, limit)
  {
    if a == [] {
      assert a + b == b;
    } else {
      CrossableConcat(a[1..], b, side, limit);
      assert (a + b)[1..] == a[1..] + b;
    }
  }

  /** Orders at one price cross together or not at all. */
  lemma {:induction false} CrossableLevel(mem: Mem, q: seq<int>, p: int, side: Side, bound: int)
    requires Slots(mem, q) && forall i :: 0 <= i < |q| ==> mem[q[i]].price == p
    ensures Crossable(Orders(mem, q), side, Some(bound)) == if Crosses(side, Some(bound), p) then SumQty(mem, q) else 0
  {
    if q != [] {
      CrossableLevel(mem, q[1..], p, side, bound);
      assert Orders(mem, q)[1..] == Orders(mem, q[1..]);
    }
  }

  lemma {:induction false} LevelCrossable(v: BookVal, mem: Mem, side: Side, bound: int, k: nat)
    requires BookOk(v, mem)
    requires var h := v.HalfOf(Opposite(side)); k < |h.queues|
    ensures var h := v.HalfOf(Opposite(side));
      Crossable(Orders(mem, h.queues[k]), side, Some(bound))
        == if Crosses(side, Some(bound), IndexToPrice(v.grid, k)) then h.levels[k].totalQty else 0
  {
    OpenBook(v, mem);
    var h := v.HalfOf(Opposite(side));
    assert LevelAt(v.grid, v.inst, Opposite(side), mem, h.levels[k], h.queues[k], k);
    CrossableLevel(mem, h.queues[k], IndexToPrice(v.grid, k), side, bound);
  }

  lemma {:induction false} CrossableUpStep(mem: Mem, qs: seq<seq<int>>, n: nat, side: Side, limit: Option<int>)
    requires 0 < n <= |qs|
    ensures Crossable(Orders(mem, FlatUp(qs[..n])), side, limit)
         == Crossable(Orders(mem, FlatUp(qs[..n - 1])), side, limit) + Crossable(Orders(mem, qs[n - 1]), side, limit)
  {
    assert qs[..n][..n - 1] == qs[..n - 1];
    OrdersConcat(mem, FlatUp(qs[..n - 1]), qs[n - 1]);
    CrossableConcat(Orders(mem, FlatUp(qs[..n - 1])), Orders(mem, qs[n - 1]), side, limit);
  }

  lemma {:induction false} CrossableDownStep(mem: Mem, qs: seq<seq<int>>, n: nat, side: Side, limit: Option<int>)
    requires 0 < n <= |qs|
    ensures Crossable(Orders(mem, FlatDown(qs[..n])), side, limit)
         == Crossable(Orders(mem, qs[n - 1]), side, limit) + Crossable(Orders(mem, FlatDown(qs[..n - 1])), side, limit)
  {
    assert qs[..n][..n - 1] == qs[..n - 1];
    OrdersConcat(mem, qs[n - 1], FlatDown(qs[..n - 1]));
    CrossableConcat(Orders(mem, qs[n - 1]), Orders(mem, FlatDown(qs[..n - 1])), side, limit);
  }

  /** A buy with this bound reaches exactly the levels up to `to`. */
  ghost predicate ReachesUpTo(g: Grid, n: int, bound: int, to: int) {
    forall k :: 0 <= k < n ==> (IndexToPrice(g, k) <= bound <==> k <= to)
  }

  /** A sell with this bound reaches exactly the levels from `from`. */
  ghost predicate ReachesFrom(g: Grid, n: int, bound: int, from: int) {
    forall k :: 0 <= k < n ==> (IndexToPrice(g, k) >= bound <==> k >= from)
  }

  lemma {:induction false} AskLevel(v: BookVal, mem: Mem, bound: int, to: int, k: nat)
    requires BookOk(v, mem) && k < |v.asks.queues| && ReachesUpTo(v.grid, |v.asks.queues|, bound, to)
    ensures Crossable(Orders(mem, v.asks.queues[k]), Buy, Some(bound)) == if k <= to then v.asks.levels[k].totalQty else 0
  {
    OpenBook(v, mem);
    LevelCrossable(v, mem, Buy, bound, k);
    assert IndexToPrice(v.grid, k) <= bound <==> k <= to;
  }

  lemma {:induction false} BidLevel(v: BookVal, mem: Mem, bound: int, from: int, k: nat)
    requires BookOk(v, mem) && k < |v.bids.queues| && ReachesFrom(v.grid, |v.bids.queues|, bound, from)
    ensures Crossable(Orders(mem, v.bids.queues[k]), Sell, Some(bound)) == if k >= from then v.bids.levels[k].totalQty else 0
  {
    OpenBook(v, mem);
    LevelCrossable(v, mem, Sell, bound, k);
    assert IndexToPrice(v.grid, k) >= bound <==> k >= from;
  }

  /** Level by level: an ask level counts whole up to `to`, a bid level from `from`. */
  ghost predicate AskShares(mem: Mem, qs: seq<seq<int>>, levels: seq<PriceLevel>, bound: int, to: int) {
    |levels| == |qs| && forall k :: 0 <= k < |qs| ==>
      Crossable(Orders(mem, qs[k]), Buy, Some(bound)) == if k <= to then levels[k].totalQty else 0
  }

  ghost predicate BidShares(mem: Mem, qs: seq<seq<int>>, levels: seq<PriceLevel>, bound: int, from: int) {
    |levels| == |qs| && forall k :: 0 <= k < |qs| ==>
      Crossable(Orders(mem, qs[k]), Sell, Some(bound)) == if k >= from then levels[k].totalQty else 0
  }

  lemma {:induction false} CrossableAsks(mem: Mem, qs: seq<seq<int>>, levels: seq<PriceLevel>, bound: int, to: int, n: nat)
    requires AskShares(mem, qs, levels, bound, to) && n <= |qs| && to >= -1
    ensures Crossable(Orders(mem, FlatUp(qs[..n])), Buy, Some(bound)) == RangeSum(levels, 0, if to + 1 < n then to + 1 else n)
  {
    if n > 0 {
      CrossableAsks(mem, qs, levels, bound, to, n - 1);
      CrossableUpStep(mem, qs, n, Buy, Some(bound));
    }
  }

  lemma {:induction false} CrossableBids(mem: Mem, qs: seq<seq<int>>, levels: seq<PriceLevel>, bound: int, from: nat, n: nat)
    requires BidShares(mem, qs, levels, bound, from) && n <= |qs|
    ensures Crossable(Orders(mem, FlatDown(qs[..n])), Sell, Some(bound)) == RangeSum(levels, from, n)
  {
    if n > 0 {
      CrossableBids(mem, qs, levels, bound, from, n - 1);
      CrossableDownStep(mem, qs, n, Sell, Some(bound));
    }
  }

  lemma {:induction false} AskListCrossable(v: BookVal, mem: Mem, bound: int, to: int)
    requires BookOk(v, mem) && 0 <= to < |v.asks.queues| && ReachesUpTo(v.grid, |v.asks.queues|, bound, to)
    ensures Crossable(Listed(Sell, v.asks, mem), Buy, Some(bound)) == RangeSum(v.asks.levels, 0, to + 1)
  {
    OpenBook(v, mem);
    var qs := v.asks.queues;
    forall k | 0 <= k < |qs|
      ensures Crossable(Orders(mem, qs[k]), Buy, Some(bound)) == if k <= to then v.asks.levels[k].totalQty else 0
    {
      AskLevel(v, mem, bound, to, k);
    }
    CrossableAsks(mem, qs, v.asks.levels, bound, to, |qs|);
    assert qs[..|qs|] == qs;
  }

  lemma {:induction false} BidListCrossable(v: BookVal, mem: Mem, bound: int, from: nat)
    requires BookOk(v, mem) && ReachesFrom(v.grid, |v.bids.queues|, bound, from)
    ensures Crossable(Listed(Buy, v.bids, mem), Sell, Some(bound)) == RangeSum(v.bids.levels, from, |v.bids.levels|)
  {
    OpenBook(v, mem);
    var qs := v.bids.queues;
    forall k | 0 <= k < |qs|
      ensures Crossable(Orders(mem, qs[k]), Sell, Some(bound)) == if k >= from then v.bids.levels[k].totalQty else 0
    {
      BidLevel(v, mem, bound, from, k);
    }
    CrossableBids(mem, qs, v.bids.levels, bound, from, |qs|);
    assert qs[..|qs|] == qs;
  }

  lemma {:induction false} EmptyTotals(v: BookVal, mem: Mem, side: Side, k: nat)
    requires BookOk(v, mem) && k < |v.HalfOf(side).queues| && v.HalfOf(side).queues[k] == []
    ensures v.HalfOf(side).levels[k].totalQty == 0
  {
    OpenBook(v, mem);
    var h := v.HalfOf(side);
    assert LevelAt(v.grid, v.inst, side, mem, h.levels[k], h.queues[k], k);
  }

  /** Last ask level the check looks at. */
  function ToIndex(g: Grid, limit: int): int
    requires g.tick > 0
  {
    if limit >= g.max then NumLevels(g) - 1 else if limit < g.min then 0 else TickToIndex(g, limit)
  }

  /** First bid level the check looks at. */
  function FromIndex(g: Grid, limit: int): int
    requires g.tick > 0
  {
    if limit <= g.min then 0 else if limit > g.max then NumLevels(g) else TickToIndex(g, limit)
  }

  lemma {:induction false} ToIndexBound(g: Grid, limit: int, k: int)
    requires g.WellFormed() && 0 <= k < NumLevels(g)
    ensures 0 <= ToIndex(g, limit) < NumLevels(g)
    ensures IndexToPrice(g, k) <= FokBound(g, Buy, limit) <==> k <= ToIndex(g, limit)
  {
    IndexRoundTrip(g, k);
    IndexBound(g, FokBound(g, Buy, limit), k);
    if limit < g.min {
      IndexOrder(g, 0, k);
    } else if limit < g.max {
      IndexBound(g, limit, 0);
      var top := NumLevels(g) - 1;
      assert IndexToPrice(g, top) == g.max;
      IndexBound(g, limit, top);
    }
  }

  lemma {:induction false} FromIndexBound(g: Grid, limit: int, k: int)
    requires g.WellFormed() && 0 <= k < NumLevels(g)
    ensures 0 <= FromIndex(g, limit) <= NumLevels(g)
    ensures IndexToPrice(g, k) >= FokBound(g, Sell, limit) <==> k >= FromIndex(g, limit)
  {
    IndexRoundTrip(g, k);
    if g.min < limit <= g.max {
      var from := TickToIndex(g, limit);
      IndexOrder(g, k, from);
      IndexBound(g, limit, 0);
      var top := NumLevels(g) - 1;
      assert IndexToPrice(g, top) == g.max;
      IndexBound(g, limit, from);
      IndexOrder(g, top, from);
    }
  }

  lemma {:induction false} ToIndexReaches(g: Grid, limit: int)
    requires g.WellFormed()
    ensures 0 <= ToIndex(g, limit) < NumLevels(g)
    ensures ReachesUpTo(g, NumLevels(g), FokBound(g, Buy, limit), ToIndex(g, limit))
  {
    ToIndexBound(g, limit, 0);
    forall k | 0 <= k < NumLevels(g)
      ensures IndexToPrice(g, k) <= FokBound(g, Buy, limit) <==> k <= ToIndex(g, limit)
    {
      ToIndexBound(g, limit, k);
    }
  }

  lemma {:induction false} FromIndexReaches(g: Grid, limit: int)
    requires g.WellFormed()
    ensures 0 <= FromIndex(g, limit) <= NumLevels(g)
    ensures ReachesFrom(g, NumLevels(g), FokBound(g, Sell, limit), FromIndex(g, limit))
  {
    FromIndexBound(g, limit, 0);
    forall k | 0 <= k < NumLevels(g)
      ensures IndexToPrice(g, k) >= FokBound(g, Sell, limit) <==> k >= FromIndex(g, limit)
    {
      FromIndexBound(g, limit, k);
    }
  }

  /** Levels strictly better than the cursor contribute nothing. */
  ghost predicate QuietBeyond(side: Side, best: int, levels: seq<PriceLevel>) {
    && (best == NO_BEST || 0 <= best < |levels|)
    && forall k :: 0 <= k < |levels| && (best == NO_BEST || BetterLevel(side, k, best)) ==> levels[k].totalQty == 0
  }

  lemma {:induction false} BookIsQuiet(v: BookVal, mem: Mem, side: Side)
    requires BookOk(v, mem)
    ensures QuietBeyond(side, v.HalfOf(side).best, v.HalfOf(side).levels)
  {
    OpenBook(v, mem);
    var h := v.HalfOf(side);
    forall k | 0 <= k < |h.levels| && (h.best == NO_BEST || BetterLevel(side, k, h.best))
      ensures h.levels[k].totalQty == 0
    {
      assert h.queues[k] == [];
      EmptyTotals(v, mem, side, k);
    }
  }

  /** What the buy check adds up: from the best ask to the last level in reach. */
  function AskSum(levels: seq<PriceLevel>, best: int, to: int): nat
    requires to < |levels|
  {
    if best < 0 || best > to then 0 else RangeSum(levels, best, to + 1)
  }

  /** What the sell check adds up: from the first level in reach to the best bid. */
  function BidSum(levels: seq<PriceLevel>, best: int, from: nat): nat
    requires best < |levels|
  {
    if best < 0 || from > best then 0 else RangeSum(levels, from, best + 1)
  }

  lemma {:induction false} AskSumIsAll(levels: seq<PriceLevel>, best: int, to: int)
    requires QuietBeyond(Sell, best, levels) && 0 <= to < |levels|
    ensures AskSum(levels, best, to) == RangeSum(levels, 0, to + 1)
  {
    var first := if best == NO_BEST || best > to then to + 1 else best;
    RangeZero(levels, 0, first);
    RangeJoin(levels, 0, first, to + 1);
  }

  lemma {:induction false} BidSumIsAll(levels: seq<PriceLevel>, best: int, from: nat)
    requires QuietBeyond(Buy, best, levels) && from <= |levels|
    ensures BidSum(levels, best, from) == RangeSum(levels, from, |levels|)
  {
    var last := if best == NO_BEST || from > best then from else best + 1;
    RangeZero(levels, last, |levels|);
    RangeJoin(levels, from, last, |levels|);
  }

  lemma {:induction false} AvailableAsks(v: BookVal, mem: Mem, limit: int)
    requires BookOk(v, mem)
    ensures 0 <= ToIndex(v.grid, limit) < |v.asks.levels|
    ensures Crossable(Listed(Sell, v.asks, mem), Buy, Some(FokBound(v.grid, Buy, limit)))
         == RangeSum(v.asks.levels, 0, ToIndex(v.grid, limit) + 1)
  {
    OpenBook(v, mem);
    ToIndexReaches(v.grid, limit);
    AskListCrossable(v, mem, FokBound(v.grid, Buy, limit), ToIndex(v.grid, limit));
  }

  lemma {:induction false} AvailableBids(v: BookVal, mem: Mem, limit: int)
    requires BookOk(v, mem)
    ensures 0 <= FromIndex(v.grid, limit) <= |v.bids.levels|
    ensures Crossable(Listed(Buy, v.bids, mem), Sell, Some(FokBound(v.grid, Sell, limit)))
         == RangeSum(v.bids.levels, FromIndex(v.grid, limit), |v.bids.levels|)
  {
    OpenBook(v, mem);
    FromIndexReaches(v.grid, limit);
    BidListCrossable(v, mem, FokBound(v.grid, Sell, limit), FromIndex(v.grid, limit));
  }

  /** The sum of level totals the check forms, before truncation to 32 bits. */
  function CheckedSum(v: BookVal, side: Side, limit: int): nat
    requires v.grid.tick > 0
    requires 0 <= ToIndex(v.grid, limit) < |v.asks.levels|
    requires 0 <= FromIndex(v.grid, limit) && v.bids.best < |v.bids.levels|
  {
    if side == Buy then AskSum(v.asks.levels, v.asks.best, ToIndex(v.grid, limit))
    else BidSum(v.bids.levels, v.bids.best, FromIndex(v.grid, limit))
  }

  /** The check counts exactly what the reference's feasibility quantity counts. */
  lemma {:induction false} CheckedSumIsAvailable(v: BookVal, mem: Mem, side: Side, limit: int)
    requires BookOk(v, mem)
    ensures 0 <= ToIndex(v.grid, limit) < |v.asks.levels|
    ensures 0 <= FromIndex(v.grid, limit) <= |v.bids.levels| && v.bids.best < |v.bids.levels|
    ensures FokAvailable(v.grid, ViewOf(v, mem), side, limit) == CheckedSum(v, side, limit) % TWO_32
  {
    OpenBook(v, mem);
    BookIsQuiet(v, mem, Buy);
    BookIsQuiet(v, mem, Sell);
    AvailableAsks(v, mem, limit);
    AvailableBids(v, mem, limit);
    if side == Buy {
      AskSumIsAll(v.asks.levels, v.asks.best, ToIndex(v.grid, limit));
    } else {
      BidSumIsAll(v.bids.levels, v.bids.best, FromIndex(v.grid, limit));
    }
  }
}
