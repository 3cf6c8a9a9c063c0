/** What the laws of the reference engine say about the slots, levels and cursors of an engine
    in any state it can be in. */
module EngineLaws {
  import opened Types
  import opened Reference
  import opened PriceLevels
  import opened Ticks
  import opened Halves
  import opened Books
  import opened OrderBooks
  import opened Ownership
  import opened Settlement
  import RunLaws
  import SlotLaws
  import opened Health

  /** A level's price is the grid price of its index. */
  lemma {:induction false} LevelPrice(v: BookVal, mem: Mem, side: Side, k: nat)
    requires BookOk(v, mem) && k < |v.HalfOf(side).levels|
    ensures v.HalfOf(side).levels[k].price == IndexToPrice(v.grid, k)
  {
    OpenBook(v, mem);
    var h := v.HalfOf(side);
    assert LevelAt(v.grid, v.inst, side, mem, h.levels[k], h.queues[k], k);
  }

  lemma {:induction false} BookCursors(v: BookVal, mem: Mem)
    requires BookOk(v, mem) && RunLaws.Uncrossed(ViewOf(v, mem))
    ensures v.bids.best != NO_BEST && v.asks.best != NO_BEST ==> v.bids.best < v.asks.best
  {
    BestHead(v, mem, Buy);
    BestHead(v, mem, Sell);
    if v.bids.best != NO_BEST && v.asks.best != NO_BEST {
      LevelPrice(v, mem, Buy, v.bids.best);
      LevelPrice(v, mem, Sell, v.asks.best);
      OpenBook(v, mem);
      IndexOrder(v.grid, v.bids.best, v.asks.best);
    }
  }

  /** In an engine that stands for a healthy state, the bid cursor of every book is strictly
      below its ask cursor. */
  lemma {:induction false} CursorsNeverCross(
      st: State, clock: nat, mem: Mem, free: seq<int>, vals: map<nat, BookVal>, leaked: set<int>, fills: nat, rejected: nat,
      k: nat)
    requires Healthy(st, clock, |mem|)
    requires StandsFor(st, mem, free, vals, leaked, fills, rejected) && k in vals
    ensures var v := vals[k]; v.bids.best != NO_BEST && v.asks.best != NO_BEST ==> v.bids.best < v.asks.best
  {
    OpenHealth(st, clock, |mem|);
    OpenEngine(st, mem, free, vals, leaked, fills, rejected);
    OpenOwned(mem, free, vals, leaked);
    assert st.books[k] == ViewOf(vals[k], mem);
    assert RunLaws.BookOk(st.grids[k], st.books[k], clock);
    BookCursors(vals[k], mem);
  }

  /** `used_count` is the number of orders resting in all books, plus the leaked slots. */
  lemma {:induction false} UsedSlots(
      st: State, clock: nat, mem: Mem, free: seq<int>, vals: map<nat, BookVal>, leaked: set<int>, fills: nat, rejected: nat)
    requires Healthy(st, clock, |mem|)
    requires StandsFor(st, mem, free, vals, leaked, fills, rejected)
    ensures |mem| - |free| == RunLaws.LiveTotal(ViewAll(vals, mem)) + |leaked| && |leaked| == st.leaked
  {
    OpenHealth(st, clock, |mem|);
    OpenEngine(st, mem, free, vals, leaked, fills, rejected);
  }

  /** Without leaks the freelist and the books partition the pool: every slot is free or queued
      in the book of its own instrument, never both, and `used_count` is the live orders. */
  lemma {:induction false} PoolIsPartitioned(
      st: State, clock: nat, mem: Mem, free: seq<int>, vals: map<nat, BookVal>, leaked: set<int>, fills: nat, rejected: nat)
    requires Healthy(st, clock, |mem|) && st.leaked == 0
    requires StandsFor(st, mem, free, vals, leaked, fills, rejected)
    ensures leaked == {} && |mem| - |free| == RunLaws.LiveTotal(ViewAll(vals, mem))
    ensures forall x :: 0 <= x < |mem| ==> (x in free <==> !InItsBook(mem, vals, x))
  {
    UsedSlots(st, clock, mem, free, vals, leaked, fills, rejected);
    assert leaked == {};
    forall x | 0 <= x < |mem|
      ensures x in free <==> !InItsBook(mem, vals, x)
    {
      EachSlotOnce(st, mem, free, vals, leaked, fills, rejected, x);
      OwnBook(st, mem, free, vals, leaked, fills, rejected, x);
    }
  }

  /** A slot that is neither free nor leaked is in the book of its own instrument. */
  lemma {:induction false} OwnBook(
      st: State, mem: Mem, free: seq<int>, vals: map<nat, BookVal>, leaked: set<int>, fills: nat, rejected: nat, x: int)
    requires StandsFor(st, mem, free, vals, leaked, fills, rejected) && 0 <= x < |mem|
    ensures x in free || x in leaked || InItsBook(mem, vals, x)
  {
    OpenEngine(st, mem, free, vals, leaked, fills, rejected);
    OpenOwned(mem, free, vals, leaked);
  }

  /** From an engine without leaks, a run whose limit orders all name prices with levels leaves
      the freelist and the books a partition of the pool. */
  lemma {:induction false} LevelledRunPartitions(
      st: State, clock: nat, ms: seq<Stamped>,
      mem: Mem, free: seq<int>, vals: map<nat, BookVal>, leaked: set<int>, fills: nat, rejected: nat)
    requires Healthy(st, clock, |mem|) && st.leaked == 0
    requires RunLaws.Monotone(clock, ms) && AdmissibleRun(st, ms) && SlotLaws.AllLevelled(st.grids, ms)
    requires StandsFor(Run(st, ms).state, mem, free, vals, leaked, fills, rejected)
    ensures leaked == {} && |mem| - |free| == RunLaws.LiveTotal(ViewAll(vals, mem))
    ensures forall x :: 0 <= x < |mem| ==> (x in free <==> !InItsBook(mem, vals, x))
  {
    RunIsHealthy(st, clock, |mem|, ms);
    SlotLaws.RunLeaksNothing(st, ms);
    PoolIsPartitioned(Run(st, ms).state, RunLaws.ClockAfter(clock, ms), mem, free, vals, leaked, fills, rejected);
  }
}
