/** One side of a book: its array of levels, its best cursor, and the queues they stand for. */
module Halves {
  import opened Types
  import opened Reference
  import opened PriceLevels
  import opened Ticks

  /** The code's `kNoBest`. */
  const NO_BEST: int := -1

  /** A side as a value.  `queues[k]` are the slots queued at level `k`, oldest first. */
  datatype Half = Half(levels: seq<PriceLevel>, best: int, queues: seq<seq<int>>)

  /** Every order queued here carries this instrument, side and price, and has quantity left. */
  ghost predicate Belongs(mem: Mem, inst: nat, side: Side, price: int, q: seq<int>) {
    && Slots(mem, q)
    && forall i :: 0 <= i < |q| ==>
         var o := mem[q[i]];
         o.instrumentId == inst && o.side == side && o.price == price && o.quantity > 0
  }

  ghost predicate LevelAt(g: Grid, inst: nat, side: Side, mem: Mem, lvl: PriceLevel, q: seq<int>, k: int) {
    && IsQueue(mem, lvl, q)
    && lvl.price == IndexToPrice(g, k)
    && Belongs(mem, inst, side, lvl.price, q)
  }

  /** `i` is a strictly better level than `k`. */
  predicate BetterLevel(side: Side, i: int, k: int) {
    if side == Buy then i > k else i < k
  }

  /** The cursor is the best non-empty level, or none when every level is empty. */
  ghost predicate BestOk(side: Side, best: int, qs: seq<seq<int>>) {
    if best == NO_BEST then forall k :: 0 <= k < |qs| ==> qs[k] == []
    else
      && 0 <= best < |qs|
      && qs[best] != []
      && forall k :: 0 <= k < |qs| && BetterLevel(side, k, best) ==> qs[k] == []
  }

  ghost predicate HalfOk(g: Grid, inst: nat, side: Side, h: Half, mem: Mem)
    requires g.tick > 0
  {
    && |h.levels| == NumLevels(g) == |h.queues|
    && (forall k {:trigger LevelAt(g, inst, side, mem, h.levels[k], h.queues[k], k)} ::
          0 <= k < |h.queues| ==> LevelAt(g, inst, side, mem, h.levels[k], h.queues[k], k))
    && BestOk(side, h.best, h.queues)
  }

  ghost predicate Absent(qs: seq<seq<int>>, x: int) {
    forall k :: 0 <= k < |qs| ==> x !in qs[k]
  }

  lemma {:induction false} LevelFrame(
      g: Grid, inst: nat, side: Side, mem: Mem, mem': Mem, lvl: PriceLevel, q: seq<int>, k: int)
    requires LevelAt(g, inst, side, mem, lvl, q, k)
    requires |mem'| == |mem| && forall x :: x in q ==> 0 <= x < |mem| && mem'[x] == mem[x]
    ensures LevelAt(g, inst, side, mem', lvl, q, k)
  {
    QueueFrame(mem, mem', lvl, q);
  }

  /** A slot sits in at most one level of a side. */
  lemma {:induction false} OneLevel(g: Grid, inst: nat, side: Side, h: Half, mem: Mem, j: nat, k: nat, x: int)
    requires g.WellFormed() && HalfOk(g, inst, side, h, mem)
    requires j < |h.queues| && k < |h.queues| && x in h.queues[j] && x in h.queues[k]
    ensures j == k
  {
    assert LevelAt(g, inst, side, mem, h.levels[j], h.queues[j], j);
    assert LevelAt(g, inst, side, mem, h.levels[k], h.queues[k], k);
    IndexOrder(g, j, k);
  }

  /** Replacing one level leaves the others standing, when only its own slots changed. */
  lemma {:induction false} HalfUpdate(
      g: Grid, inst: nat, side: Side, h: Half, mem: Mem,
      k: nat, lvl: PriceLevel, q: seq<int>, best: int, mem': Mem)
    requires g.WellFormed() && HalfOk(g, inst, side, h, mem)
    requires k < |h.queues|
    requires LevelAt(g, inst, side, mem', lvl, q, k)
    requires |mem'| == |mem|
    requires forall x :: 0 <= x < |mem| && x !in h.queues[k] && x !in q ==> mem'[x] == mem[x]
    requires forall x :: x in q && x !in h.queues[k] ==> Absent(h.queues, x)
    requires BestOk(side, best, h.queues[k := q])
    ensures HalfOk(g, inst, side, Half(h.levels[k := lvl], best, h.queues[k := q]), mem')
  {
    var h' := Half(h.levels[k := lvl], best, h.queues[k := q]);
    forall j | 0 <= j < |h'.queues|
      ensures LevelAt(g, inst, side, mem', h'.levels[j], h'.queues[j], j)
    {
      if j != k {
        assert LevelAt(g, inst, side, mem, h.levels[j], h.queues[j], j);
        forall x | x in h.queues[j]
          ensures 0 <= x < |mem| && mem'[x] == mem[x]
        {
          if x in h.queues[k] { OneLevel(g, inst, side, h, mem, j, k, x); }
        }
        LevelFrame(g, inst, side, mem, mem', h.levels[j], h.queues[j], j);
      }
    }
  }

  /** A side is unaffected by changes to slots it does not hold. */
  lemma {:induction false} HalfFrame(g: Grid, inst: nat, side: Side, h: Half, mem: Mem, mem': Mem)
    requires g.tick > 0 && HalfOk(g, inst, side, h, mem)
    requires |mem'| == |mem|
    requires forall x :: 0 <= x < |mem| && !Absent(h.queues, x) ==> mem'[x] == mem[x]
    ensures HalfOk(g, inst, side, h, mem')
  {
    forall j | 0 <= j < |h.queues|
      ensures LevelAt(g, inst, side, mem', h.levels[j], h.queues[j], j)
    {
      assert LevelAt(g, inst, side, mem, h.levels[j], h.queues[j], j);
      LevelFrame(g, inst, side, mem, mem', h.levels[j], h.queues[j], j);
    }
  }

  // ------------------------------------------------------------- flattening

  /** Queues in ascending level order. */
  function FlatUp(qs: seq<seq<int>>): seq<int> {
    if qs == [] then [] else FlatUp(qs[..|qs| - 1]) + qs[|qs| - 1]
  }

  /** Queues in descending level order. */
  function FlatDown(qs: seq<seq<int>>): seq<int> {
    if qs == [] then [] else qs[|qs| - 1] + FlatDown(qs[..|qs| - 1])
  }

  /** The slots of a side from best to worst. */
  function Flat(side: Side, qs: seq<seq<int>>): seq<int> {
    if side == Buy then FlatDown(qs) else FlatUp(qs)
  }

  /** The slots ahead of level `k`, and those behind it. */
  function Front(side: Side, qs: seq<seq<int>>, k: nat): seq<int>
    requires k < |qs|
  {
    if side == Buy then FlatDown(qs[k + 1..]) else FlatUp(qs[..k])
  }

  function Back(side: Side, qs: seq<seq<int>>, k: nat): seq<int>
    requires k < |qs|
  {
    if side == Buy then FlatDown(qs[..k]) else FlatUp(qs[k + 1..])
  }

  lemma {:induction false} FlatUpSplit(qs: seq<seq<int>>, k: nat)
    requires k < |qs|
    ensures FlatUp(qs) == FlatUp(qs[..k]) + qs[k] + FlatUp(qs[k + 1..])
  {
    var n := |qs| - 1;
    if k < n {
      FlatUpSplit(qs[..n], k);
      assert qs[..n][..k] == qs[..k];
      assert qs[..n][k + 1..] == qs[k + 1..][..n - k - 1];
    }
  }

  lemma {:induction false} FlatDownSplit(qs: seq<seq<int>>, k: nat)
    requires k < |qs|
    ensures FlatDown(qs) == FlatDown(qs[k + 1..]) + qs[k] + FlatDown(qs[..k])
  {
    var n := |qs| - 1;
    if k < n {
      FlatDownSplit(qs[..n], k);
      assert qs[..n][..k] == qs[..k];
      assert qs[..n][k + 1..] == qs[k + 1..][..n - k - 1];
    }
  }

  lemma {:induction false} FlatSplit(side: Side, qs: seq<seq<int>>, k: nat)
    requires k < |qs|
    ensures Flat(side, qs) == Front(side, qs, k) + qs[k] + Back(side, qs, k)
  {
    if side == Buy { FlatDownSplit(qs, k); } else { FlatUpSplit(qs, k); }
  }

  /** Editing level `k` edits the flattened side in place. */
  lemma {:induction false} FlatUpdate(side: Side, qs: seq<seq<int>>, k: nat, q: seq<int>)
    requires k < |qs|
    ensures Flat(side, qs[k := q]) == Front(side, qs, k) + q + Back(side, qs, k)
  {
    FlatSplit(side, qs[k := q], k);
    assert qs[k := q][..k] == qs[..k];
    assert qs[k := q][k + 1..] == qs[k + 1..];
  }

  lemma {:induction false} AbsentLast(qs: seq<seq<int>>, x: int)
    requires qs != []
    ensures Absent(qs, x) <==> Absent(qs[..|qs| - 1], x) && x !in qs[|qs| - 1]
  {
    var init := qs[..|qs| - 1];
    if Absent(qs, x) {
      forall k | 0 <= k < |init| ensures x !in init[k] {
        assert init[k] == qs[k];
      }
    }
    if Absent(init, x) && x !in qs[|qs| - 1] {
      forall k | 0 <= k < |qs| ensures x !in qs[k] {
        assert k < |init| ==> init[k] == qs[k];
      }
    }
  }

  lemma {:induction false} InFlatUp(qs: seq<seq<int>>, x: int)
    ensures x in FlatUp(qs) <==> !Absent(qs, x)
  {
    if qs != [] {
      var n := |qs| - 1;
      InFlatUp(qs[..n], x);
      AbsentLast(qs, x);
    }
  }

  lemma {:induction false} InFlatDown(qs: seq<seq<int>>, x: int)
    ensures x in FlatDown(qs) <==> !Absent(qs, x)
  {
    if qs != [] {
      var n := |qs| - 1;
      InFlatDown(qs[..n], x);
      AbsentLast(qs, x);
    }
  }

  lemma {:induction false} InFlat(side: Side, qs: seq<seq<int>>, x: int)
    ensures x in Flat(side, qs) <==> !Absent(qs, x)
  {
    if side == Buy { InFlatDown(qs, x); } else { InFlatUp(qs, x); }
  }

  /** Everything in front of level `k` sits in a better level; everything behind, in a worse one. */
  lemma {:induction false} FrontLevel(side: Side, qs: seq<seq<int>>, k: nat, x: int) returns (j: nat)
    requires k < |qs| && x in Front(side, qs, k)
    ensures j < |qs| && BetterLevel(side, j, k) && x in qs[j]
  {
    if side == Buy {
      InFlatDown(qs[k + 1..], x);
      var i :| 0 <= i < |qs[k + 1..]| && x in qs[k + 1..][i];
      j := i + k + 1;
    } else {
      InFlatUp(qs[..k], x);
      var i :| 0 <= i < k && x in qs[..k][i];
      j := i;
    }
  }

  lemma {:induction false} BackLevel(side: Side, qs: seq<seq<int>>, k: nat, x: int) returns (j: nat)
    requires k < |qs| && x in Back(side, qs, k)
    ensures j < |qs| && BetterLevel(side, k, j) && x in qs[j]
  {
    if side == Buy {
      InFlatDown(qs[..k], x);
      var i :| 0 <= i < k && x in qs[..k][i];
      j := i;
    } else {
      InFlatUp(qs[k + 1..], x);
      var i :| 0 <= i < |qs[k + 1..]| && x in qs[k + 1..][i];
      j := i + k + 1;
    }
  }

  /** Nothing is in front of the best level. */
  lemma {:induction false} BestIsFront(side: Side, best: int, qs: seq<seq<int>>)
    requires BestOk(side, best, qs)
    ensures best == NO_BEST ==> Flat(side, qs) == []
    ensures best != NO_BEST ==> Front(side, qs, best) == []
  {
    if best == NO_BEST {
      if Flat(side, qs) != [] {
        InFlat(side, qs, Flat(side, qs)[0]);
      }
    } else if Front(side, qs, best) != [] {
      var j := FrontLevel(side, qs, best, Front(side, qs, best)[0]);
    }
  }

  // ------------------------------------------------------------ the abstraction

  /** The reference order a slot stands for. */
  function RestingAt(mem: Mem, x: int): Resting {
    if 0 <= x < |mem| then Resting(mem[x].orderId, mem[x].price, mem[x].quantity, mem[x].time)
    else Resting(0, 0, 0, 0)
  }

  function Orders(mem: Mem, xs: seq<int>): (s: seq<Resting>)
    ensures |s| == |xs|
    ensures forall i :: 0 <= i < |xs| ==> s[i] == RestingAt(mem, xs[i])
  {
    seq(|xs|, i requires 0 <= i < |xs| => RestingAt(mem, xs[i]))
  }

  lemma {:induction false} OrdersConcat(mem: Mem, a: seq<int>, b: seq<int>)
    ensures Orders(mem, a + b) == Orders(mem, a) + Orders(mem, b)
  {
  }

  lemma {:induction false} OrdersSame(mem: Mem, mem': Mem, xs: seq<int>)
    requires forall i :: 0 <= i < |xs| ==> RestingAt(mem', xs[i]) == RestingAt(mem, xs[i])
    ensures Orders(mem', xs) == Orders(mem, xs)
  {
  }

  /** The list of orders a side stands for. */
  function Listed(side: Side, h: Half, mem: Mem): seq<Resting> {
    Orders(mem, Flat(side, h.queues))
  }
}
