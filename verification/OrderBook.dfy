/** The limit order book of one instrument, updated in place. */
module OrderBooks {
  import opened Types
  import opened Reference
  import opened PriceLevels
  import opened Ticks
  import opened Halves
  import opened Books
  import opened Feasibility

  class OrderBook {
    const instrumentId: nat
    const grid: Grid
    var bidLevels: seq<PriceLevel>
    var askLevels: seq<PriceLevel>
    var bestBid: int
    var bestAsk: int
    var index: map<nat, int>
    ghost var bidQueues: seq<seq<int>>
    ghost var askQueues: seq<seq<int>>

    ghost function Val(): BookVal
      reads this
    {
      BookVal(grid, instrumentId, Half(bidLevels, bestBid, bidQueues), Half(askLevels, bestAsk, askQueues), index)
    }

    /** The book is consistent with the slots of the pool. */
    ghost predicate Valid(mem: Mem)
      reads this
    {
      BookOk(Val(), mem)
    }

    /** The reference book this book stands for. */
    ghost function View(mem: Mem): Book
      reads this
    {
      ViewOf(Val(), mem)
    }

    /** An empty book with one level per tick on each side. */
    constructor (id: nat, g: Grid)
      requires g.WellFormed()
      ensures Val() == Blank(g, id)
    {
      instrumentId, grid := id, g;
      bidLevels, askLevels := [], [];
      bestBid, bestAsk := NO_BEST, NO_BEST;
      index := map[];
      bidQueues, askQueues := [], [];
      new;
      var n := NumLevels(g);
      while |bidLevels| < n
        invariant Val() == BookVal(g, id, BlankHalf(g, |bidLevels|), BlankHalf(g, |bidLevels|), map[])
        invariant |bidLevels| <= n
        decreases n - |bidLevels|
      {
        var p := IndexToPrice(g, |bidLevels|);
        BlankHalfGrows(g, |bidLevels|);
        bidLevels, bidQueues := bidLevels + [PriceLevel(NIL, NIL, p, 0, 0)], bidQueues + [[]];
        askLevels, askQueues := askLevels + [PriceLevel(NIL, NIL, p, 0, 0)], askQueues + [[]];
      }
    }

    /** Forget every order. */
    method Clear(ghost mem: Mem)
      requires Valid(mem) && grid.WellFormed()
      modifies this
      ensures Val() == Blank(grid, instrumentId)
    {
      ghost var v := Val();
      var i := 0;
      while i < |bidLevels|
        invariant 0 <= i <= |bidLevels| == |v.bids.levels|
        invariant askLevels == v.asks.levels
        invariant forall k :: 0 <= k < |bidLevels| ==>
          bidLevels[k] == if k < i then PriceLevel(NIL, NIL, v.bids.levels[k].price, 0, 0) else v.bids.levels[k]
      {
        bidLevels := bidLevels[i := PriceLevel(NIL, NIL, bidLevels[i].price, 0, 0)];
        i := i + 1;
      }
      i := 0;
      while i < |askLevels|
        invariant 0 <= i <= |askLevels| == |v.asks.levels| && |bidLevels| == |v.bids.levels|
        invariant forall k :: 0 <= k < |bidLevels| ==> bidLevels[k] == PriceLevel(NIL, NIL, v.bids.levels[k].price, 0, 0)
        invariant forall k :: 0 <= k < |askLevels| ==>
          askLevels[k] == if k < i then PriceLevel(NIL, NIL, v.asks.levels[k].price, 0, 0) else v.asks.levels[k]
      {
        askLevels := askLevels[i := PriceLevel(NIL, NIL, askLevels[i].price, 0, 0)];
        i := i + 1;
      }
      bestBid, bestAsk := NO_BEST, NO_BEST;
      index := map[];
      bidQueues, askQueues := seq(|bidLevels|, _ => []), seq(|askLevels|, _ => []);
      ClearedHalf(v, mem, Buy, bidLevels);
      ClearedHalf(v, mem, Sell, askLevels);
    }

    function SideLevels(side: Side): seq<PriceLevel>
      reads this
    {
      if side == Buy then bidLevels else askLevels
    }

    function Best(side: Side): int
      reads this
    {
      if side == Buy then bestBid else bestAsk
    }

    /** `side_levels(side)[k] = lvl`, with its queue. */
    method PutLevel(side: Side, k: nat, lvl: PriceLevel, ghost q: seq<int>)
      requires k < |Val().HalfOf(side).levels| && k < |Val().HalfOf(side).queues|
      modifies this
      ensures Val() == Edited(old(Val()), side, k, lvl, q, old(Val()).HalfOf(side).best)
    {
      if side == Buy {
        bidLevels, bidQueues := bidLevels[k := lvl], bidQueues[k := q];
      } else {
        askLevels, askQueues := askLevels[k := lvl], askQueues[k := q];
      }
    }

    /** Move the cursor off a drained level, scanning away from the best price. */
    method AdvanceBestCursor(side: Side, drained: nat)
      requires EmptyAgree(Val().HalfOf(side).levels, Val().HalfOf(side).queues)
      requires MayAdvance(side, Val().HalfOf(side).best, drained, Val().HalfOf(side).queues)
      modifies this
      ensures Val() == old(Val()).WithHalf(side, old(Val()).HalfOf(side).(best := Val().HalfOf(side).best))
      ensures BestOk(side, Val().HalfOf(side).best, Val().HalfOf(side).queues)
    {
      if side == Buy {
        if bestBid != drained {
          return;
        }
        var i := drained;
        while i > 0 && bidLevels[i - 1].head == NIL
          invariant 0 <= i <= drained
          invariant forall j :: i <= j < |bidQueues| ==> bidQueues[j] == []
        {
          i := i - 1;
        }
        bestBid := if i == 0 then NO_BEST else i - 1;
      } else {
        if bestAsk != drained {
          return;
        }
        var i := drained + 1;
        while i < |askLevels| && askLevels[i].head == NIL
          invariant drained < i <= |askLevels|
          invariant forall j :: 0 <= j < i ==> askQueues[j] == []
        {
          i := i + 1;
        }
        bestAsk := if i == |askLevels| then NO_BEST else i;
      }
    }

    /** Queue an order behind everything at its price or better; an order whose price has no
        level is not queued at all. */
    method AddOrder(st: array<Order>, o: int)
      requires Valid(st[..])
      requires 0 <= o < st.Length && !Holds(Val(), o)
      requires st[o].instrumentId == instrumentId && st[o].quantity > 0
      requires grid.IsValidPrice(st[o].price) ==>
        && st[o].orderId !in index
        && LevelQty(View(st[..]).SideList(st[o].side), st[o].price) + st[o].quantity < TWO_32
      modifies this, st
      ensures !grid.IsValidPrice(old(st[o]).price) ==> Val() == old(Val()) && st[..] == old(st[..])
      ensures grid.IsValidPrice(old(st[o]).price) ==>
        && Valid(st[..])
        && View(st[..]) == old(View(st[..])).WithSide(old(st[o]).side,
             Insert(old(st[o]).side, old(View(st[..])).SideList(old(st[o]).side), RestingAt(old(st[..]), o)))
        && Gains(old(Val()), Val(), o)
      ensures Untouched(old(Val()), o, old(st[..]), st[..])
      ensures OnlyLinksChanged(old(st[..]), st[..])
    {
      ghost var v := Val();
      ghost var mem := st[..];
      var p, side := st[o].price, st[o].side;
      if !grid.IsValidPrice(p) {
        return;
      }
      AddReady(v, mem, o);
      var k := TickToIndex(grid, p);
      var lvl := Enlist(st, side, k, o);
      AddedOk(v, mem, side, k, o, lvl, Val().HalfOf(side).best, Val(), st[..]);
    }

    /** Append to the level, register the id, raise the cursor. */
    method Enlist(st: array<Order>, side: Side, k: nat, o: int) returns (lvl: PriceLevel)
      requires k < |Val().HalfOf(side).levels| && k < |Val().HalfOf(side).queues|
      requires var was := Val().HalfOf(side).levels[k];
        && IsQueue(st[..], was, Val().HalfOf(side).queues[k])
        && 0 <= o < st.Length && o !in Val().HalfOf(side).queues[k]
        && was.totalQty + st[o].quantity < TWO_32 && was.orderCount + 1 < TWO_32
        && st[o].orderId !in index
      modifies this, st
      ensures var v := old(Val()); var q := v.HalfOf(side).queues[k] + [o]; var best := v.HalfOf(side).best;
        && IsQueue(st[..], lvl, q) && lvl.price == v.HalfOf(side).levels[k].price
        && Val() == Edited(v, side, k, lvl, q, if best == NO_BEST || BetterLevel(side, k, best) then k else best)
                      .(index := v.index[old(st[o]).orderId := o])
        && OnlyLinksChanged(old(st[..]), st[..])
        && UnchangedOutside(old(st[..]), st[..], q)
    {
      ghost var q := Val().HalfOf(side).queues[k];
      lvl := LevelEnqueueTail(st, SideLevels(side)[k], o, q);
      PutLevel(side, k, lvl, q + [o]);
      if st[o].orderId !in index {
        index := index[st[o].orderId := o];
      }
      RaiseBest(side, k);
    }

    /** The cursor follows a newcomer that improves on it. */
    method RaiseBest(side: Side, k: nat)
      modifies this
      ensures Val() == old(Val()).WithHalf(side, old(Val()).HalfOf(side).(best := Val().HalfOf(side).best))
      ensures var best := old(Val()).HalfOf(side).best;
        Val().HalfOf(side).best == if best == NO_BEST || BetterLevel(side, k, best) then k else best
    {
      if side == Buy {
        if bestBid == NO_BEST || k > bestBid { bestBid := k; }
      } else {
        if bestAsk == NO_BEST || k < bestAsk { bestAsk := k; }
      }
    }

    /** Splice `o` out of level `k`, deregister it, and move the cursor if the level drained. */
    method Unlink(st: array<Order>, side: Side, k: nat, o: int, ghost i: nat) returns (lvl: PriceLevel)
      requires Ready(Val().HalfOf(side), side, st[..], k, o, i)
      modifies this, st
      ensures var v := old(Val()); var q := v.HalfOf(side).queues[k];
        && IsQueue(st[..], lvl, Delete(q, i)) && lvl.price == v.HalfOf(side).levels[k].price
        && Val() == Edited(v, side, k, lvl, Delete(q, i), Val().HalfOf(side).best)
                      .(index := v.index - {old(st[o]).orderId})
        && BestOk(side, Val().HalfOf(side).best, v.HalfOf(side).queues[k := Delete(q, i)])
        && OnlyLinksChanged(old(st[..]), st[..])
        && UnchangedOutside(old(st[..]), st[..], q)
    {
      ghost var h := Val().HalfOf(side);
      ghost var q := h.queues[k];
      lvl := LevelRemove(st, SideLevels(side)[k], o, q, i);
      HeadOfQueue(st[..], lvl, Delete(q, i));
      Deregister(side, k, lvl, Delete(q, i), st[o].orderId);
    }

    /** Store a shortened level, erase the id, and move the cursor if the level drained. */
    method Deregister(side: Side, k: nat, lvl: PriceLevel, ghost q: seq<int>, id: nat)
      requires var h := Val().HalfOf(side);
        && EmptyAgree(h.levels, h.queues) && BestOk(side, h.best, h.queues)
        && k < |h.queues| && h.queues[k] != [] && (lvl.head == NIL <==> q == [])
      modifies this
      ensures var v := old(Val());
        && Val() == Edited(v, side, k, lvl, q, Val().HalfOf(side).best).(index := v.index - {id})
        && BestOk(side, Val().HalfOf(side).best, v.HalfOf(side).queues[k := q])
    {
      ghost var h := Val().HalfOf(side);
      PutLevel(side, k, lvl, q);
      index := index - {id};
      UnlinkedCursor(h, side, k, lvl, q);
      if lvl.head == NIL {
        AdvanceBestCursor(side, k);
      }
    }

    /** Cancel a resting order. */
    method CancelOrder(st: array<Order>, o: int)
      requires Valid(st[..]) && Holds(Val(), o)
      modifies this, st
      ensures 0 <= o < st.Length
      ensures Valid(st[..])
      ensures Dropped(old(Val()), old(st[..]), Val(), st[..], o)
      ensures st[o].quantity == old(st[..])[o].quantity && st[o].status == Cancelled
    {
      ghost var v, mem := Val(), st[..];
      ghost var i := Locate(v, mem, o);
      var side, k := st[o].side, TickToIndex(grid, st[o].price);
      var lvl := Unlink(st, side, k, o, i);
      ghost var mid := st[..];
      st[o] := st[o].(status := Cancelled);
      DroppedOk(v, mem, side, k, i, lvl, Val(), mid, st[..]);
    }

    /** Lower a resting order to `qty`, in place; zero cancels it. */
    method ReduceOrderQty(st: array<Order>, o: int, qty: U32)
      requires Valid(st[..]) && Holds(Val(), o)
      requires 0 <= o < st.Length && qty <= st[o].quantity
      modifies this, st
      ensures Valid(st[..])
      ensures qty == 0 ==> Dropped(old(Val()), old(st[..]), Val(), st[..], o)
      ensures qty > 0 ==> Reduced(old(Val()), old(st[..]), Val(), st[..], o)
      ensures st[o].quantity == qty && (qty == 0 ==> st[o].status == Cancelled)
    {
      ghost var v, mem := Val(), st[..];
      ghost var i := Locate(v, mem, o);
      var side, k := st[o].side, TickToIndex(grid, st[o].price);
      ghost var lvl, mid := ReduceAt(st, side, k, o, qty, i);
      if qty == 0 {
        DroppedOk(v, mem, side, k, i, lvl, Val(), mid, st[..]);
      } else {
        ReducedOk(v, mem, side, k, i, lvl, Val(), mid, st[..]);
      }
    }

    method ReduceAt(st: array<Order>, side: Side, k: nat, o: int, qty: U32, ghost i: nat)
        returns (ghost lvl: PriceLevel, ghost mid: Mem)
      requires Ready(Val().HalfOf(side), side, st[..], k, o, i)
      requires qty <= st[o].quantity
      modifies this, st
      ensures qty == 0 ==> DropFacts(old(Val()), old(st[..]), side, k, i, lvl, Val(), mid, st[..])
      ensures qty > 0 ==> ReduceFacts(old(Val()), old(st[..]), side, k, i, lvl, Val(), mid, st[..])
      ensures st[o].quantity == qty && (qty == 0 ==> st[o].status == Cancelled)
    {
      ghost var v, mem := Val(), st[..];
      ghost var q := v.HalfOf(side).queues[k];
      var lvl0 := LevelReduceQty(st, SideLevels(side)[k], o, st[o].quantity - qty, q, i);
      ReadyAgain(v.HalfOf(side), side, mem, k, o, i, lvl0, st[..]);
      PutLevel(side, k, lvl0, q);
      ghost var taken := st[..];
      lvl, mid := lvl0, taken;
      if qty == 0 {
        lvl := Unlink(st, side, k, o, i);
        mid := st[..];
        st[o] := st[o].(status := Cancelled);
        UnlinkFacts(v, mem, side, k, i, lvl0, taken, lvl, Val(), mid, st[..]);
      }
    }

    /** Take the front order off a side; `NIL` when the side is empty. */
    method PopBestHead(st: array<Order>, side: Side) returns (o: int)
      requires Valid(st[..])
      modifies this, st
      ensures Valid(st[..])
      ensures old(View(st[..])).SideList(side) == [] ==> o == NIL && Val() == old(Val()) && st[..] == old(st[..])
      ensures old(View(st[..])).SideList(side) != [] ==>
        && 0 <= o < st.Length
        && Dropped(old(Val()), old(st[..]), Val(), st[..], o)
        && old(View(st[..])).SideList(side)[0] == RestingAt(old(st[..]), o)
        && View(st[..]) == old(View(st[..])).WithSide(side, old(View(st[..])).SideList(side)[1..])
    {
      ghost var v, mem := Val(), st[..];
      BestHead(v, mem, side);
      if Best(side) == NO_BEST {
        return NIL;
      }
      var k := Best(side);
      ghost var lvl;
      o, lvl := PopAt(st, side, k);
      DroppedOk(v, mem, side, k, 0, lvl, Val(), st[..], st[..]);
      DeleteFirst(v, mem, side, o);
    }

    method PopAt(st: array<Order>, side: Side, k: nat) returns (o: int, ghost lvl: PriceLevel)
      requires k < |Val().HalfOf(side).queues| && Val().HalfOf(side).queues[k] != []
      requires Ready(Val().HalfOf(side), side, st[..], k, Val().HalfOf(side).queues[k][0], 0)
      modifies this, st
      ensures o == old(Val()).HalfOf(side).queues[k][0]
      ensures DropFacts(old(Val()), old(st[..]), side, k, 0, lvl, Val(), st[..], st[..])
    {
      ghost var q := Val().HalfOf(side).queues[k];
      var r;
      o, r := DequeueAt(st, SideLevels(side)[k], q);
      lvl := r;
      Deregister(side, k, r, Delete(q, 0), st[o].orderId);
    }

    /** Take the head off a level that is not empty. */
    method DequeueAt(st: array<Order>, lvl: PriceLevel, ghost q: seq<int>) returns (o: int, r: PriceLevel)
      requires IsQueue(st[..], lvl, q) && q != []
      modifies st
      ensures o == q[0] && 0 <= o < st.Length && r.price == lvl.price
      ensures IsQueue(st[..], r, Delete(q, 0)) && (r.head == NIL <==> Delete(q, 0) == [])
      ensures OnlyOrderChanged(old(st[..]), st[..], o) && UnchangedOutside(old(st[..]), st[..], q)
      ensures st[o].orderId == old(st[..])[o].orderId
    {
      o, r := LevelDequeueHead(st, lvl, q);
      assert Delete(q, 0) == q[1..];
      HeadOfQueue(st[..], r, Delete(q, 0));
    }

    /** Quantity the fill-or-kill check counts on the opposite side, in 32-bit arithmetic. */
    method AvailableQuantityAtOrBetter(side: Side, limit: int, ghost mem: Mem) returns (total: U32)
      requires Valid(mem)
      ensures total == FokAvailable(grid, View(mem), side, limit)
    {
      CheckedSumIsAvailable(Val(), mem, side, limit);
      total := CountAvailable(side, limit);
    }

    method CountAvailable(side: Side, limit: int) returns (total: U32)
      requires grid.tick > 0
      requires 0 <= ToIndex(grid, limit) < |askLevels| && 0 <= FromIndex(grid, limit) && bestBid < |bidLevels|
      ensures total == CheckedSum(Val(), side, limit) % TWO_32
    {
      if side == Buy {
        var to := ToIndex(grid, limit);
        if bestAsk < 0 || bestAsk > to {
          return 0;
        }
        total := SumTotals(askLevels, bestAsk, to + 1);
      } else {
        var from := FromIndex(grid, limit);
        if bestBid < 0 || from > bestBid {
          return 0;
        }
        total := SumTotals(bidLevels, from, bestBid + 1);
      }
    }

    /** The core fill primitive: take `fill` off a resting order; true when it is done and gone. */
    method FillRestingOrder(st: array<Order>, rest: int, fill: U32) returns (done: bool)
      requires Valid(st[..]) && Holds(Val(), rest)
      requires 0 <= rest < st.Length && 0 < fill <= st[rest].quantity
      modifies this, st
      ensures Valid(st[..])
      ensures done <==> fill == old(st[rest]).quantity
      ensures done ==> Dropped(old(Val()), old(st[..]), Val(), st[..], rest)
      ensures !done ==> Reduced(old(Val()), old(st[..]), Val(), st[..], rest)
      ensures st[rest].quantity == old(st[rest]).quantity - fill
      ensures st[rest].status == if done then Filled else Partial
    {
      ghost var v, mem := Val(), st[..];
      ghost var i := Locate(v, mem, rest);
      var side, k := st[rest].side, TickToIndex(grid, st[rest].price);
      ghost var lvl, mid;
      done, lvl, mid := FillAt(st, side, k, rest, fill, i);
      if done {
        DroppedOk(v, mem, side, k, i, lvl, Val(), mid, st[..]);
      } else {
        ReducedOk(v, mem, side, k, i, lvl, Val(), mid, st[..]);
      }
    }

    method FillAt(st: array<Order>, side: Side, k: nat, rest: int, fill: U32, ghost i: nat)
        returns (done: bool, ghost lvl: PriceLevel, ghost mid: Mem)
      requires Ready(Val().HalfOf(side), side, st[..], k, rest, i)
      requires fill <= st[rest].quantity
      modifies this, st
      ensures done <==> fill == old(st[rest]).quantity
      ensures done ==> DropFacts(old(Val()), old(st[..]), side, k, i, lvl, Val(), mid, st[..])
      ensures !done ==> ReduceFacts(old(Val()), old(st[..]), side, k, i, lvl, Val(), mid, st[..])
      ensures st[rest].quantity == old(st[rest]).quantity - fill
      ensures st[rest].status == if done then Filled else Partial
    {
      ghost var v, mem := Val(), st[..];
      ghost var q := v.HalfOf(side).queues[k];
      var lvl0 := TakeQty(st, side, k, rest, fill, i);
      ghost var taken := st[..];
      lvl, mid := lvl0, taken;
      if st[rest].quantity == 0 {
        lvl := Unlink(st, side, k, rest, i);
        mid := st[..];
        st[rest] := st[rest].(status := Filled);
        UnlinkFacts(v, mem, side, k, i, lvl0, taken, lvl, Val(), mid, st[..]);
        done := true;
      } else {
        st[rest] := st[rest].(status := Partial);
        done := false;
      }
    }

    /** The order's and the level's quantity go down together. */
    method TakeQty(st: array<Order>, side: Side, k: nat, o: int, delta: U32, ghost i: nat) returns (lvl: PriceLevel)
      requires Ready(Val().HalfOf(side), side, st[..], k, o, i)
      requires delta <= st[o].quantity
      modifies this, st
      ensures Val() == Edited(old(Val()), side, k, lvl, old(Val()).HalfOf(side).queues[k], old(Val()).HalfOf(side).best)
      ensures Ready(Val().HalfOf(side), side, st[..], k, o, i)
      ensures IsQueue(st[..], lvl, old(Val()).HalfOf(side).queues[k]) && lvl.price == old(Val()).HalfOf(side).levels[k].price
      ensures st[..] == old(st[..])[o := old(st[o]).(quantity := old(st[o]).quantity - delta)]
    {
      ghost var h := Val().HalfOf(side);
      ghost var mem := st[..];
      lvl := SideLevels(side)[k];
      lvl := lvl.(totalQty := (lvl.totalQty - delta) % TWO_32);
      st[o] := st[o].(quantity := st[o].quantity - delta);
      TakenReady(h, side, mem, k, o, i, lvl, st[..]);
      PutLevel(side, k, lvl, h.queues[k]);
    }
  }

  /** Add up level totals in 32 bits. */
  method SumTotals(levels: seq<PriceLevel>, lo: nat, hi: nat) returns (total: U32)
    requires lo <= hi <= |levels|
    ensures total == RangeSum(levels, lo, hi) % TWO_32
  {
    total := 0;
    var i := lo;
    while i < hi
      invariant lo <= i <= hi
      invariant total == RangeSum(levels, lo, i) % TWO_32
    {
      total := (total + levels[i].totalQty) % TWO_32;
      i := i + 1;
    }
  }

  // ------------------------------------------------- removal and reduction

  /** Slot `o` is at position `i` of level `k`, and the side's cursor and levels agree. */
  ghost predicate Ready(h: Half, side: Side, mem: Mem, k: nat, o: int, i: nat) {
    && k < |h.levels| && k < |h.queues|
    && IsQueue(mem, h.levels[k], h.queues[k])
    && i < |h.queues[k]| && h.queues[k][i] == o && 0 <= o < |mem|
    && EmptyAgree(h.levels, h.queues)
    && BestOk(side, h.best, h.queues)
  }

  lemma {:induction false} UnlinkedCursor(h: Half, side: Side, k: nat, lvl: PriceLevel, q: seq<int>)
    requires EmptyAgree(h.levels, h.queues) && BestOk(side, h.best, h.queues)
    requires k < |h.queues| && h.queues[k] != [] && (lvl.head == NIL <==> q == [])
    ensures EmptyAgree(h.levels[k := lvl], h.queues[k := q])
    ensures lvl.head == NIL ==> MayAdvance(side, h.best, k, h.queues[k := q])
    ensures lvl.head != NIL ==> BestOk(side, h.best, h.queues[k := q])
  {
    BestAfterDrop(side, h.best, h.queues, k, q);
    var levels, qs := h.levels[k := lvl], h.queues[k := q];
    assert forall j :: 0 <= j < |qs| ==> (levels[j].head == NIL <==> qs[j] == []);
  }

  lemma {:induction false} HeadOfQueue(mem: Mem, lvl: PriceLevel, q: seq<int>)
    requires IsQueue(mem, lvl, q)
    ensures lvl.head == NIL <==> q == []
  {
    if q != [] { assert 0 <= q[0] < |mem|; }
  }

  /** Where a held slot is. */
  lemma {:induction false} Locate(v: BookVal, mem: Mem, o: int) returns (i: nat)
    requires BookOk(v, mem) && Holds(v, o)
    ensures 0 <= o < |mem| && v.grid.IsValidPrice(mem[o].price) && mem[o].quantity > 0
    ensures var k := TickToIndex(v.grid, mem[o].price); var h := v.HalfOf(mem[o].side);
      0 <= k < |h.queues| && Ready(h, mem[o].side, mem, k, o, i)
  {
    OpenBook(v, mem);
    HeldWhere(v, mem, o);
    var k := TickToIndex(v.grid, mem[o].price);
    var h := v.HalfOf(mem[o].side);
    i :| 0 <= i < |h.queues[k]| && h.queues[k][i] == o;
    assert LevelAt(v.grid, v.inst, mem[o].side, mem, h.levels[k], h.queues[k], k);
    HalfAgrees(v, mem, mem[o].side);
  }

  lemma {:induction false} TakenReady(h: Half, side: Side, mem: Mem, k: nat, o: int, i: nat, lvl: PriceLevel, mem': Mem)
    requires Ready(h, side, mem, k, o, i)
    requires |mem'| == |mem| && mem' == mem[o := mem'[o]]
    requires mem'[o] == mem[o].(quantity := mem'[o].quantity) && mem'[o].quantity <= mem[o].quantity
    requires lvl == h.levels[k].(totalQty := lvl.totalQty)
    requires lvl.totalQty == (h.levels[k].totalQty - (mem[o].quantity - mem'[o].quantity)) % TWO_32
    ensures IsQueue(mem', lvl, h.queues[k])
    ensures Ready(Half(h.levels[k := lvl], h.best, h.queues[k := h.queues[k]]), side, mem', k, o, i)
  {
    SumReduce(mem, mem', h.queues[k], i);
    ReadyAgain(h, side, mem, k, o, i, lvl, mem');
  }

  lemma {:induction false} EditTwice(
      v: BookVal, side: Side, k: nat, lvl: PriceLevel, lvl': PriceLevel, q: seq<int>, q': seq<int>, best: int)
    requires k < |v.HalfOf(side).queues| && k < |v.HalfOf(side).levels|
    ensures var w := Edited(v, side, k, lvl, q, v.HalfOf(side).best);
      Edited(w, side, k, lvl', q', best) == Edited(v, side, k, lvl', q', best)
  {
    var h := v.HalfOf(side);
    assert h.levels[k := lvl][k := lvl'] == h.levels[k := lvl'];
    assert h.queues[k := q][k := q'] == h.queues[k := q'];
  }

  /** Same order, apart from links, quantity and status. */
  predicate SameOrder(a: Order, b: Order) {
    a == b.(next := a.next, prev := a.prev, quantity := a.quantity, status := a.status)
  }

  /** Everywhere but at `o` only links changed, and `o` is still the same order. */
  ghost predicate OnlyOrderChanged(mem: Mem, mem': Mem, o: int) {
    && |mem'| == |mem| && 0 <= o < |mem|
    && SameOrder(mem'[o], mem[o])
    && forall x :: 0 <= x < |mem| && x != o ==> SameButLinks(mem'[x], mem[x])
  }

  /** Order `o` left the book: its entry is deleted from its side's list, and nothing else moved. */
  ghost predicate Dropped(v: BookVal, mem: Mem, v': BookVal, mem': Mem, o: int) {
    && OnlyOrderChanged(mem, mem', o)
    && Loses(v, v', o)
    && Untouched(v, o, mem, mem')
    && var side := mem[o].side; var s := ViewOf(v, mem).SideList(side);
       && HasId(s, mem[o].orderId) && s[Find(s, mem[o].orderId)] == RestingAt(mem, o)
       && ViewOf(v', mem') == ViewOf(v, mem).WithSide(side, Delete(s, Find(s, mem[o].orderId)))
  }

  /** Order `o` kept its place with a smaller quantity. */
  ghost predicate Reduced(v: BookVal, mem: Mem, v': BookVal, mem': Mem, o: int) {
    && OnlyOrderChanged(mem, mem', o)
    && HoldsSame(v, v')
    && Untouched(v, o, mem, mem')
    && var side := mem[o].side; var s := ViewOf(v, mem).SideList(side);
       && HasId(s, mem[o].orderId) && s[Find(s, mem[o].orderId)] == RestingAt(mem, o)
       && ViewOf(v', mem') == ViewOf(v, mem).WithSide(side, s[Find(s, mem[o].orderId) := RestingAt(mem', o)])
  }

  lemma {:induction false} OrderChangeFacts(mem: Mem, mem': Mem, o: int)
    requires OnlyOrderChanged(mem, mem', o)
    ensures IdsKept(mem, mem')
    ensures forall x :: x != o ==> RestingAt(mem', x) == RestingAt(mem, x)
  {
  }

  lemma {:induction false} DropBelongs(mem: Mem, mem': Mem, inst: nat, side: Side, p: int, q: seq<int>, i: nat)
    requires Belongs(mem, inst, side, p, q) && Distinct(q) && i < |q|
    requires OnlyOrderChanged(mem, mem', q[i])
    ensures Belongs(mem', inst, side, p, Delete(q, i))
  {
    var r := Delete(q, i);
    assert forall j :: 0 <= j < |r| ==> r[j] == q[if j < i then j else j + 1];
  }

  /** Level `k` was respliced without position `i` (memory `mid`), then slot `i` was finished off. */
  ghost predicate DropFacts(
      v: BookVal, mem: Mem, side: Side, k: nat, i: nat, lvl: PriceLevel, v': BookVal, mid: Mem, mem': Mem)
  {
    && k < |v.HalfOf(side).queues| && k < |v.HalfOf(side).levels| && i < |v.HalfOf(side).queues[k]|
    && var q := v.HalfOf(side).queues[k]; var o := q[i];
      && 0 <= o < |mem|
      && IsQueue(mid, lvl, Delete(q, i)) && lvl.price == v.HalfOf(side).levels[k].price
      && OnlyOrderChanged(mem, mem', o) && |mid| == |mem|
      && UnchangedOutside(mem, mid, q)
      && mem' == mid[o := mem'[o]]
      && v' == Edited(v, side, k, lvl, Delete(q, i), v'.HalfOf(side).best).(index := v.index - {mem[o].orderId})
      && BestOk(side, v'.HalfOf(side).best, v.HalfOf(side).queues[k := Delete(q, i)])
  }

  /** Slot `i` of level `k` lost quantity but not all of it, and the level's total followed. */
  ghost predicate ReduceFacts(
      v: BookVal, mem: Mem, side: Side, k: nat, i: nat, lvl: PriceLevel, v': BookVal, mid: Mem, mem': Mem)
  {
    && k < |v.HalfOf(side).queues| && k < |v.HalfOf(side).levels| && i < |v.HalfOf(side).queues[k]|
    && var q := v.HalfOf(side).queues[k]; var o := q[i];
      && 0 <= o < |mem|
      && IsQueue(mid, lvl, q) && lvl.price == v.HalfOf(side).levels[k].price
      && |mid| == |mem| == |mem'| && mid == mem[o := mid[o]]
      && mem' == mid[o := mid[o].(status := mem'[o].status)]
      && SameOrder(mem'[o], mem[o]) && mem'[o].quantity > 0
      && v' == Edited(v, side, k, lvl, q, v.HalfOf(side).best)
  }

  /** Taking quantity first and splicing after amounts to one drop. */
  lemma {:induction false} UnlinkFacts(
      v: BookVal, mem: Mem, side: Side, k: nat, i: nat, lvl0: PriceLevel, taken: Mem,
      lvl: PriceLevel, v': BookVal, mid: Mem, mem': Mem)
    requires k < |v.HalfOf(side).queues| && k < |v.HalfOf(side).levels| && i < |v.HalfOf(side).queues[k]|
    requires lvl0.price == v.HalfOf(side).levels[k].price == lvl.price
    requires var q := v.HalfOf(side).queues[k]; var o := q[i];
      && 0 <= o < |mem| && |taken| == |mem| && taken == mem[o := taken[o]] && SameOrder(taken[o], mem[o])
      && IsQueue(mid, lvl, Delete(q, i))
      && OnlyLinksChanged(taken, mid) && UnchangedOutside(taken, mid, q)
      && |mem'| == |mid| && mem' == mid[o := mid[o].(status := mem'[o].status)]
      && v' == Edited(Edited(v, side, k, lvl0, q, v.HalfOf(side).best), side, k, lvl, Delete(q, i), v'.HalfOf(side).best)
                 .(index := v.index - {mem[o].orderId})
      && BestOk(side, v'.HalfOf(side).best, v.HalfOf(side).queues[k := q][k := Delete(q, i)])
    ensures DropFacts(v, mem, side, k, i, lvl, v', mid, mem')
  {
    var q := v.HalfOf(side).queues[k];
    EditTwice(v, side, k, lvl0, lvl, q, Delete(q, i), v'.HalfOf(side).best);
    assert v.HalfOf(side).queues[k := q][k := Delete(q, i)] == v.HalfOf(side).queues[k := Delete(q, i)];
  }

  lemma {:induction false} DropLevelAt(
      g: Grid, inst: nat, side: Side, mem: Mem, was: PriceLevel, q: seq<int>, k: nat, i: nat,
      lvl: PriceLevel, mid: Mem, mem': Mem)
    requires LevelAt(g, inst, side, mem, was, q, k) && i < |q|
    requires IsQueue(mid, lvl, Delete(q, i)) && lvl.price == was.price
    requires OnlyOrderChanged(mem, mem', q[i]) && UnchangedOutside(mem, mid, q) && mem' == mid[q[i] := mem'[q[i]]]
    ensures LevelAt(g, inst, side, mem', lvl, Delete(q, i), k)
    ensures TouchesOnly(mem, mem', q, Delete(q, i))
    ensures UnchangedOutside(mem, mem', q)
  {
    DropBelongs(mem, mem', inst, side, lvl.price, q, i);
    var r := Delete(q, i);
    assert forall j :: 0 <= j < |r| ==> r[j] == q[if j < i then j else j + 1];
    QueueFrame(mid, mem', lvl, r);
  }

  lemma {:induction false} DroppedOk(
      v: BookVal, mem: Mem, side: Side, k: nat, i: nat, lvl: PriceLevel, v': BookVal, mid: Mem, mem': Mem)
    requires BookOk(v, mem)
    requires DropFacts(v, mem, side, k, i, lvl, v', mid, mem')
    ensures BookOk(v', mem')
    ensures Dropped(v, mem, v', mem', v.HalfOf(side).queues[k][i])
  {
    OpenBook(v, mem);
    var h := v.HalfOf(side);
    var q := h.queues[k];
    var o := q[i];
    OrderChangeFacts(mem, mem', o);
    assert LevelAt(v.grid, v.inst, side, mem, h.levels[k], q, k);
    DropLevelAt(v.grid, v.inst, side, mem, h.levels[k], q, k, i, lvl, mid, mem');
    DropKeepsOk(v, mem, side, k, lvl, i, v'.HalfOf(side).best, mem');
    DroppedView(v, mem, side, k, i, v', mem');
    HeldTouch(v, mem, side, k, o, mem');
  }

  lemma {:induction false} HeldTouch(v: BookVal, mem: Mem, side: Side, k: nat, o: int, mem': Mem)
    requires k < |v.HalfOf(side).queues| && o in v.HalfOf(side).queues[k]
    requires UnchangedOutside(mem, mem', v.HalfOf(side).queues[k])
    ensures Untouched(v, o, mem, mem')
  {
    forall x | 0 <= x < |mem| && x != o && !Holds(v, x)
      ensures mem'[x] == mem[x]
    {
      assert x !in v.HalfOf(side).queues[k];
    }
  }

  lemma {:induction false} DroppedView(v: BookVal, mem: Mem, side: Side, k: nat, i: nat, v': BookVal, mem': Mem)
    requires BookOk(v, mem)
    requires k < |v.HalfOf(side).queues| && i < |v.HalfOf(side).queues[k]|
    requires v'.HalfOf(side).queues == v.HalfOf(side).queues[k := Delete(v.HalfOf(side).queues[k], i)]
    requires v'.HalfOf(Opposite(side)) == v.HalfOf(Opposite(side))
    requires forall x :: x != v.HalfOf(side).queues[k][i] ==> RestingAt(mem', x) == RestingAt(mem, x)
    ensures var o := v.HalfOf(side).queues[k][i]; var s := ViewOf(v, mem).SideList(side);
      && 0 <= o < |mem| && mem[o].side == side
      && HasId(s, mem[o].orderId) && s[Find(s, mem[o].orderId)] == RestingAt(mem, o)
      && ViewOf(v', mem') == ViewOf(v, mem).WithSide(side, Delete(s, Find(s, mem[o].orderId)))
  {
    OpenBook(v, mem);
    var h := v.HalfOf(side);
    OthersKept(v, mem, side, k, i, mem');
    DropListed(side, h, mem, k, i, mem', v'.HalfOf(side));
    FoundAt(v, mem, side, k, i);
    LevelOf(v, mem, side, k, h.queues[k][i]);
    OtherListed(v, mem, side, k, i, mem');
  }

  lemma {:induction false} OthersKept(v: BookVal, mem: Mem, side: Side, k: nat, i: nat, mem': Mem)
    requires BookOk(v, mem)
    requires k < |v.HalfOf(side).queues| && i < |v.HalfOf(side).queues[k]|
    requires forall x :: x != v.HalfOf(side).queues[k][i] ==> RestingAt(mem', x) == RestingAt(mem, x)
    ensures var h := v.HalfOf(side);
      && (forall x :: x in Front(side, h.queues, k) + h.queues[k][..i] ==> RestingAt(mem', x) == RestingAt(mem, x))
      && (forall x :: x in h.queues[k][i + 1..] + Back(side, h.queues, k) ==> RestingAt(mem', x) == RestingAt(mem, x))
  {
    OpenBook(v, mem);
    var h := v.HalfOf(side);
    forall x | x in Front(side, h.queues, k) + h.queues[k][..i] || x in h.queues[k][i + 1..] + Back(side, h.queues, k)
      ensures RestingAt(mem', x) == RestingAt(mem, x)
    {
      NotSameSlot(v, mem, side, k, i, x);
    }
  }

  lemma {:induction false} ReduceLevelAt(
      g: Grid, inst: nat, side: Side, mem: Mem, was: PriceLevel, q: seq<int>, k: nat, i: nat,
      lvl: PriceLevel, mid: Mem, mem': Mem)
    requires LevelAt(g, inst, side, mem, was, q, k) && i < |q|
    requires IsQueue(mid, lvl, q) && lvl.price == was.price
    requires |mid| == |mem| == |mem'| && mid == mem[q[i] := mid[q[i]]]
    requires mem' == mid[q[i] := mid[q[i]].(status := mem'[q[i]].status)]
    requires SameOrder(mem'[q[i]], mem[q[i]]) && mem'[q[i]].quantity > 0
    ensures OnlyOrderChanged(mem, mem', q[i])
    ensures LevelAt(g, inst, side, mem', lvl, q, k)
    ensures TouchesOnly(mem, mem', q, q) && UnchangedOutside(mem, mem', q)
  {
    assert OnlyOrderChanged(mem, mem', q[i]);
    ReduceBelongs(mem, mem', inst, side, lvl.price, q, q[i]);
    RestatusQueue(mid, mem', lvl, q, q[i]);
  }

  lemma {:induction false} ReducedOk(
      v: BookVal, mem: Mem, side: Side, k: nat, i: nat, lvl: PriceLevel, v': BookVal, mid: Mem, mem': Mem)
    requires BookOk(v, mem)
    requires ReduceFacts(v, mem, side, k, i, lvl, v', mid, mem')
    ensures BookOk(v', mem')
    ensures Reduced(v, mem, v', mem', v.HalfOf(side).queues[k][i])
  {
    OpenBook(v, mem);
    var h := v.HalfOf(side);
    var q := h.queues[k];
    var o := q[i];
    assert LevelAt(v.grid, v.inst, side, mem, h.levels[k], q, k);
    ReduceLevelAt(v.grid, v.inst, side, mem, h.levels[k], q, k, i, lvl, mid, mem');
    OrderChangeFacts(mem, mem', o);
    EditSameQueue(v, side, k, lvl);
    ReduceKeepsOk(v, mem, side, k, lvl, mem');
    ReducedView(v, mem, side, k, i, v', mem');
    HeldTouch(v, mem, side, k, o, mem');
  }

  lemma {:induction false} EditSameQueue(v: BookVal, side: Side, k: nat, lvl: PriceLevel)
    requires k < |v.HalfOf(side).queues| && k < |v.HalfOf(side).levels|
    ensures var v' := Edited(v, side, k, lvl, v.HalfOf(side).queues[k], v.HalfOf(side).best);
      && v'.HalfOf(side).queues == v.HalfOf(side).queues
      && v'.HalfOf(Opposite(side)) == v.HalfOf(Opposite(side))
  {
    assert v.HalfOf(side).queues[k := v.HalfOf(side).queues[k]] == v.HalfOf(side).queues;
  }

  lemma {:induction false} ReduceBelongs(mem: Mem, mem': Mem, inst: nat, side: Side, p: int, q: seq<int>, o: int)
    requires Belongs(mem, inst, side, p, q) && OnlyOrderChanged(mem, mem', o) && mem'[o].quantity > 0
    ensures Belongs(mem', inst, side, p, q)
  {
  }

  lemma {:induction false} RestatusQueue(mem: Mem, mem': Mem, lvl: PriceLevel, q: seq<int>, o: int)
    requires IsQueue(mem, lvl, q) && 0 <= o < |mem| && |mem'| == |mem|
    requires mem' == mem[o := mem[o].(status := mem'[o].status)]
    ensures IsQueue(mem', lvl, q)
  {
    SumSame(mem, mem', q);
  }

  lemma {:induction false} ReducedView(v: BookVal, mem: Mem, side: Side, k: nat, i: nat, v': BookVal, mem': Mem)
    requires BookOk(v, mem)
    requires k < |v.HalfOf(side).queues| && i < |v.HalfOf(side).queues[k]|
    requires v'.HalfOf(side).queues == v.HalfOf(side).queues
    requires v'.HalfOf(Opposite(side)) == v.HalfOf(Opposite(side))
    requires forall x :: x != v.HalfOf(side).queues[k][i] ==> RestingAt(mem', x) == RestingAt(mem, x)
    ensures var o := v.HalfOf(side).queues[k][i]; var s := ViewOf(v, mem).SideList(side);
      && 0 <= o < |mem| && mem[o].side == side
      && HasId(s, mem[o].orderId) && s[Find(s, mem[o].orderId)] == RestingAt(mem, o)
      && ViewOf(v', mem') == ViewOf(v, mem).WithSide(side, s[Find(s, mem[o].orderId) := RestingAt(mem', o)])
  {
    OpenBook(v, mem);
    var h := v.HalfOf(side);
    OthersKept(v, mem, side, k, i, mem');
    ReduceListed(side, h, mem, k, i, mem', v'.HalfOf(side));
    FoundAt(v, mem, side, k, i);
    LevelOf(v, mem, side, k, h.queues[k][i]);
    OtherListed(v, mem, side, k, i, mem');
  }

  // -------------------------------------------------------------- empty books

  function BlankHalf(g: Grid, n: nat): Half {
    Half(seq(n, i => PriceLevel(NIL, NIL, IndexToPrice(g, i), 0, 0)), NO_BEST, seq(n, _ => []))
  }

  function Blank(g: Grid, id: nat): BookVal
    requires g.WellFormed()
  {
    BookVal(g, id, BlankHalf(g, NumLevels(g)), BlankHalf(g, NumLevels(g)), map[])
  }

  lemma {:induction false} BlankHalfGrows(g: Grid, n: nat)
    ensures var h := BlankHalf(g, n);
      Half(h.levels + [PriceLevel(NIL, NIL, IndexToPrice(g, n), 0, 0)], NO_BEST, h.queues + [[]]) == BlankHalf(g, n + 1)
  {
  }

  /** A blank book is consistent with any memory, holds nothing and lists nothing. */
  lemma {:induction false} BlankOk(g: Grid, id: nat, mem: Mem)
    requires g.WellFormed()
    ensures BookOk(Blank(g, id), mem)
    ensures ViewOf(Blank(g, id), mem) == Book([], [])
    ensures forall x :: !Holds(Blank(g, id), x)
  {
    var v := Blank(g, id);
    assert forall x :: Absent(v.bids.queues, x);
    BestIsFront(Buy, NO_BEST, v.bids.queues);
    BestIsFront(Sell, NO_BEST, v.asks.queues);
  }

  lemma {:induction false} ClearedHalf(v: BookVal, mem: Mem, side: Side, levels: seq<PriceLevel>)
    requires v.grid.WellFormed() && BookOk(v, mem)
    requires |levels| == |v.HalfOf(side).levels|
    requires forall k :: 0 <= k < |levels| ==> levels[k] == PriceLevel(NIL, NIL, v.HalfOf(side).levels[k].price, 0, 0)
    ensures Half(levels, NO_BEST, seq(|levels|, _ => [])) == BlankHalf(v.grid, NumLevels(v.grid))
  {
    OpenBook(v, mem);
    var h := v.HalfOf(side);
    forall k | 0 <= k < |levels|
      ensures levels[k].price == IndexToPrice(v.grid, k)
    {
      assert LevelAt(v.grid, v.inst, side, mem, h.levels[k], h.queues[k], k);
    }
  }

  // ------------------------------------------------------------ the best order

  /** The cursor's level exists exactly when the list is non-empty; its head is the list's first
      order, and its price is that order's price. */
  lemma {:induction false} BestHead(v: BookVal, mem: Mem, side: Side)
    requires BookOk(v, mem)
    ensures var h := v.HalfOf(side); var s := ViewOf(v, mem).SideList(side);
      && (h.best == NO_BEST <==> s == [])
      && (h.best != NO_BEST ==>
            && 0 <= h.best < |h.queues| && h.best < |h.levels| && h.queues[h.best] != []
            && var o := h.queues[h.best][0];
               && h.levels[h.best].head == o && 0 <= o < |mem| && Holds(v, o)
               && mem[o].side == side && mem[o].quantity > 0
               && mem[o].price == h.levels[h.best].price
               && s[0] == RestingAt(mem, o) && Find(s, mem[o].orderId) == 0
               && Ready(h, side, mem, h.best, o, 0))
  {
    OpenBook(v, mem);
    var h := v.HalfOf(side);
    BestIsFront(side, h.best, h.queues);
    if h.best != NO_BEST {
      var o := h.queues[h.best][0];
      FoundAt(v, mem, side, h.best, 0);
      LevelOf(v, mem, side, h.best, o);
      assert LevelAt(v.grid, v.inst, side, mem, h.levels[h.best], h.queues[h.best], h.best);
      assert !Absent(h.queues, o);
      HalfAgrees(v, mem, side);
    }
  }

  lemma {:induction false} HalfAgrees(v: BookVal, mem: Mem, side: Side)
    requires BookOk(v, mem)
    ensures EmptyAgree(v.HalfOf(side).levels, v.HalfOf(side).queues)
  {
    OpenBook(v, mem);
    var h := v.HalfOf(side);
    forall k | 0 <= k < |h.queues|
      ensures h.levels[k].head == NIL <==> h.queues[k] == []
    {
      assert LevelAt(v.grid, v.inst, side, mem, h.levels[k], h.queues[k], k);
      HeadOfQueue(mem, h.levels[k], h.queues[k]);
    }
  }

  lemma {:induction false} DeleteFirst(v: BookVal, mem: Mem, side: Side, o: int)
    requires BookOk(v, mem) && 0 <= o < |mem|
    requires v.HalfOf(side).best != NO_BEST && 0 <= v.HalfOf(side).best < |v.HalfOf(side).queues|
    requires v.HalfOf(side).queues[v.HalfOf(side).best] != [] && o == v.HalfOf(side).queues[v.HalfOf(side).best][0]
    ensures var s := ViewOf(v, mem).SideList(side);
      s != [] && mem[o].side == side && HasId(s, mem[o].orderId) && Delete(s, Find(s, mem[o].orderId)) == s[1..]
  {
    OpenBook(v, mem);
    BestHead(v, mem, side);
    var s := ViewOf(v, mem).SideList(side);
    assert s[0].id == mem[o].orderId;
    assert Delete(s, 0) == s[1..];
  }

  /** Changing a level's total and a slot's quantity leaves the side ready for the next edit. */
  lemma {:induction false} ReadyAgain(h: Half, side: Side, mem: Mem, k: nat, o: int, i: nat, lvl: PriceLevel, mem': Mem)
    requires Ready(h, side, mem, k, o, i)
    requires |mem'| == |mem| && IsQueue(mem', lvl, h.queues[k])
    ensures Ready(Half(h.levels[k := lvl], h.best, h.queues[k := h.queues[k]]), side, mem', k, o, i)
  {
    assert h.queues[k := h.queues[k]] == h.queues;
    HeadOfQueue(mem', lvl, h.queues[k]);
    var levels := h.levels[k := lvl];
    assert forall j :: 0 <= j < |levels| && j != k ==> levels[j].head == h.levels[j].head;
  }

  // ----------------------------------------------------------------- addition

  /** The level an order is about to join, and why it may join it. */
  lemma {:induction false} AddReady(v: BookVal, mem: Mem, o: int)
    requires BookOk(v, mem)
    requires 0 <= o < |mem| && !Holds(v, o) && v.grid.IsValidPrice(mem[o].price) && mem[o].quantity > 0
    requires LevelQty(ViewOf(v, mem).SideList(mem[o].side), mem[o].price) + mem[o].quantity < TWO_32
    ensures var k := TickToIndex(v.grid, mem[o].price); var h := v.HalfOf(mem[o].side);
      && 0 <= k < |h.queues| && k < |h.levels|
      && IndexToPrice(v.grid, k) == mem[o].price == h.levels[k].price
      && IsQueue(mem, h.levels[k], h.queues[k]) && o !in h.queues[k]
      && h.levels[k].totalQty + mem[o].quantity < TWO_32 && h.levels[k].orderCount + 1 < TWO_32
  {
    OpenBook(v, mem);
    PriceRoundTrip(v.grid, mem[o].price);
    var k := TickToIndex(v.grid, mem[o].price);
    var h := v.HalfOf(mem[o].side);
    LevelTotal(v, mem, mem[o].side, k);
    assert LevelAt(v.grid, v.inst, mem[o].side, mem, h.levels[k], h.queues[k], k);
  }

  lemma {:induction false} AddedOk(
      v: BookVal, mem: Mem, side: Side, k: nat, o: int, lvl: PriceLevel, best: int, v': BookVal, mem': Mem)
    requires BookOk(v, mem)
    requires k < |v.HalfOf(side).queues| && 0 <= o < |mem| && !Holds(v, o)
    requires mem[o].side == side && mem[o].price == IndexToPrice(v.grid, k)
    requires mem[o].instrumentId == v.inst && mem[o].quantity > 0 && mem[o].orderId !in v.index
    requires IsQueue(mem', lvl, v.HalfOf(side).queues[k] + [o]) && lvl.price == IndexToPrice(v.grid, k)
    requires OnlyLinksChanged(mem, mem')
    requires UnchangedOutside(mem, mem', v.HalfOf(side).queues[k] + [o])
    requires best == (if v.HalfOf(side).best == NO_BEST || BetterLevel(side, k, v.HalfOf(side).best) then k else v.HalfOf(side).best)
    requires v' == Edited(v, side, k, lvl, v.HalfOf(side).queues[k] + [o], best).(index := v.index[mem[o].orderId := o])
    ensures BookOk(v', mem')
    ensures Gains(v, v', o)
    ensures ViewOf(v', mem') == ViewOf(v, mem).WithSide(side,
      Insert(side, ViewOf(v, mem).SideList(side), RestingAt(mem, o)))
    ensures Untouched(v, o, mem, mem')
  {
    OpenBook(v, mem);
    var h := v.HalfOf(side);
    var q := h.queues[k] + [o];
    LinksKeepView(mem, mem');
    assert LevelAt(v.grid, v.inst, side, mem, h.levels[k], h.queues[k], k);
    AddBelongs(mem, mem', v.inst, side, lvl.price, h.queues[k], o);
    BestAfterAdd(side, h.best, h.queues, k, q);
    AddKeepsOk(v, mem, side, k, lvl, o, best, mem');
    AddListed(v, mem, side, k, o, mem', v'.HalfOf(side));
    OrdersSame(mem, mem', Flat(Opposite(side), v.HalfOf(Opposite(side)).queues));
    forall x | 0 <= x < |mem| && x != o && !Holds(v, x)
      ensures mem'[x] == mem[x]
    {
      assert x !in h.queues[k];
    }
  }

  lemma {:induction false} AddBelongs(mem: Mem, mem': Mem, inst: nat, side: Side, p: int, q: seq<int>, o: int)
    requires Belongs(mem, inst, side, p, q) && OnlyLinksChanged(mem, mem')
    requires 0 <= o < |mem| && mem[o].instrumentId == inst && mem[o].side == side && mem[o].price == p && mem[o].quantity > 0
    ensures Belongs(mem', inst, side, p, q + [o])
  {
  }
}
