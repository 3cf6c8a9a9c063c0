/** Price to level index and back: `tick_to_index`, `index_to_price`, `num_levels_for`. */
module Ticks {
  import opened Arith
  import opened Types

  function NumLevels(g: Grid): int
    requires g.tick > 0
  {
    (g.max - g.min) / g.tick + 1
  }

  /** Exact for prices at or above `min`, where C++ and Dafny division agree. */
  function TickToIndex(g: Grid, p: int): int
    requires g.tick > 0
  {
    (p - g.min) / g.tick
  }

  function IndexToPrice(g: Grid, i: int): int {
    g.min + i * g.tick
  }

  lemma {:induction false} IndexOrder(g: Grid, i: int, j: int)
    requires g.tick > 0
    ensures i < j <==> IndexToPrice(g, i) < IndexToPrice(g, j)
    ensures i == j <==> IndexToPrice(g, i) == IndexToPrice(g, j)
  {
    if i < j {
      MulAtLeast(j - i, g.tick);
    } else if j < i {
      MulAtLeast(i - j, g.tick);
    }
  }

  /** A level's price is valid and leads back to the level. */
  lemma {:induction false} IndexRoundTrip(g: Grid, i: int)
    requires g.WellFormed() && 0 <= i < NumLevels(g)
    ensures g.IsValidPrice(IndexToPrice(g, i))
    ensures TickToIndex(g, IndexToPrice(g, i)) == i
  {
    DivModUnique(i * g.tick, i, 0, g.tick);
    var top := NumLevels(g) - 1;
    assert IndexToPrice(g, top) == g.max;
    IndexOrder(g, i, top);
    IndexOrder(g, 0, i);
  }

  /** A valid price has a level, and the level has that price. */
  lemma {:induction false} PriceRoundTrip(g: Grid, p: int)
    requires g.WellFormed() && g.IsValidPrice(p)
    ensures 0 <= TickToIndex(g, p) < NumLevels(g)
    ensures IndexToPrice(g, TickToIndex(g, p)) == p
  {
    var i := TickToIndex(g, p);
    assert p - g.min == i * g.tick;
    IndexOrder(g, i, NumLevels(g));
    assert (NumLevels(g) - 1) * g.tick == g.max - g.min;
    assert NumLevels(g) * g.tick == (NumLevels(g) - 1) * g.tick + g.tick;
  }

  /** Rounding an in-range price down to its level compares with every level as the price does. */
  lemma {:induction false} IndexBound(g: Grid, p: int, i: int)
    requires g.WellFormed() && g.min <= p
    ensures i <= TickToIndex(g, p) <==> IndexToPrice(g, i) <= p
  {
    var k := TickToIndex(g, p);
    assert p - g.min == k * g.tick + (p - g.min) % g.tick;
    if i <= k {
      assert (k - i) * g.tick >= 0;
    } else {
      MulAtLeast(i - k, g.tick);
    }
  }
}
