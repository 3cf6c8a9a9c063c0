/** A whole book as a value: two sides and the id index, and what each edit does to them. */
module Books {
  import opened Types
  import opened Reference
  import opened PriceLevels
  import opened Ticks
  import opened Halves

  datatype BookVal = BookVal(grid: Grid, inst: nat, bids: Half, asks: Half, index: map<nat, int>) {
    function HalfOf(side: Side): Half {
      if side == Buy then bids else asks
    }

    function WithHalf(side: Side, h: Half): BookVal {
      if side == Buy then this.(bids := h) else this.(asks := h)
    }
  }

  /** Slot `x` is queued somewhere in the book. */
  ghost predicate Holds(v: BookVal, x: int) {
    !Absent(v.bids.queues, x) || !Absent(v.asks.queues, x)
  }

  /** `v'` holds what `v` holds and slot `o`; or without slot `o`; or just the same, in the same queues. */
  ghost predicate Gains(v: BookVal, v': BookVal, o: int) {
    forall x :: Holds(v', x) <==> Holds(v, x) || x == o
  }

  ghost predicate Loses(v: BookVal, v': BookVal, o: int) {
    forall x :: Holds(v', x) <==> Holds(v, x) && x != o
  }

  ghost predicate HoldsSame(v: BookVal, v': BookVal) {
    v'.bids.queues == v.bids.queues && v'.asks.queues == v.asks.queues
  }

  /** Slots that are neither in the book nor `o` are untouched. */
  ghost predicate Untouched(v: BookVal, o: int, mem: Mem, mem': Mem) {
    |mem| == |mem'| && forall x :: 0 <= x < |mem| && x != o && !Holds(v, x) ==> mem'[x] == mem[x]
  }

  /** The index maps exactly the ids of the queued orders, each to its slot. */
  ghost predicate IndexOk(v: BookVal, mem: Mem) {
    && (forall id {:trigger EntryOk(v, mem, id)} :: id in v.index ==> EntryOk(v, mem, id))
    && (forall x {:trigger Indexed(v, mem, x)} :: Holds(v, x) ==> Indexed(v, mem, x))
  }

  /** The entry for `id` is a queued order with that id. */
  ghost predicate EntryOk(v: BookVal, mem: Mem, id: nat) {
    id in v.index && 0 <= v.index[id] < |mem| && mem[v.index[id]].orderId == id && Holds(v, v.index[id])
  }

  /** Slot `x` is the one the index has for its id. */
  ghost predicate Indexed(v: BookVal, mem: Mem, x: int) {
    0 <= x < |mem| && mem[x].orderId in v.index && v.index[mem[x].orderId] == x
  }

  /** The clauses of the book invariant. */
  // The clauses are named one by one so that the solver unfolds only those a proof asks for.
  datatype Clause = GridClause | BidsClause | AsksClause | IndexClause

  ghost predicate ClauseOk(c: Clause, v: BookVal, mem: Mem)
    requires v.grid.tick > 0
  {
    match c
    case GridClause => v.grid.WellFormed()
    case BidsClause => HalfOk(v.grid, v.inst, Buy, v.bids, mem)
    case AsksClause => HalfOk(v.grid, v.inst, Sell, v.asks, mem)
    case IndexClause => IndexOk(v, mem)
  }

  /** The book invariant.  A clause is used by naming it, which `OpenBook` does for all of them. */
  ghost predicate BookOk(v: BookVal, mem: Mem) {
    && v.grid.tick > 0
    && |v.bids.levels| == |v.bids.queues| == |v.asks.levels| == |v.asks.queues|
    && forall c {:trigger ClauseOk(c, v, mem)} :: ClauseOk(c, v, mem)
  }

  lemma {:induction false} OpenBook(v: BookVal, mem: Mem)
    requires BookOk(v, mem)
    ensures v.grid.WellFormed()
    ensures HalfOk(v.grid, v.inst, Buy, v.bids, mem)
    ensures HalfOk(v.grid, v.inst, Sell, v.asks, mem)
    ensures IndexOk(v, mem)
  {
    assert ClauseOk(GridClause, v, mem) && ClauseOk(BidsClause, v, mem);
    assert ClauseOk(AsksClause, v, mem) && ClauseOk(IndexClause, v, mem);
  }

  ghost function ViewOf(v: BookVal, mem: Mem): Book {
    Book(Listed(Buy, v.bids, mem), Listed(Sell, v.asks, mem))
  }

  // ------------------------------------------------------------ where a slot is

  /** What a queued slot says about itself is where it is. */
  lemma {:induction false} LevelOf(v: BookVal, mem: Mem, side: Side, k: nat, x: int)
    requires BookOk(v, mem)
    requires k < |v.HalfOf(side).queues| && x in v.HalfOf(side).queues[k]
    ensures 0 <= x < |mem|
    ensures mem[x].instrumentId == v.inst && mem[x].side == side && mem[x].quantity > 0
    ensures v.grid.IsValidPrice(mem[x].price) && TickToIndex(v.grid, mem[x].price) == k
    ensures mem[x].price == IndexToPrice(v.grid, k)
  {
    OpenBook(v, mem);
    var h := v.HalfOf(side);
    assert LevelAt(v.grid, v.inst, side, mem, h.levels[k], h.queues[k], k);
    IndexRoundTrip(v.grid, k);
  }

  /** Index agreement: a held slot is in the queue of its own side and price. */
  lemma {:induction false} HeldWhere(v: BookVal, mem: Mem, x: int)
    requires BookOk(v, mem) && Holds(v, x)
    ensures 0 <= x < |mem| && mem[x].instrumentId == v.inst && mem[x].quantity > 0
    ensures v.grid.IsValidPrice(mem[x].price)
    ensures 0 <= TickToIndex(v.grid, mem[x].price) < |v.HalfOf(mem[x].side).queues|
    ensures x in v.HalfOf(mem[x].side).queues[TickToIndex(v.grid, mem[x].price)]
  {
    OpenBook(v, mem);
    var side := if !Absent(v.bids.queues, x) then Buy else Sell;
    var k :| 0 <= k < |v.HalfOf(side).queues| && x in v.HalfOf(side).queues[k];
    LevelOf(v, mem, side, k, x);
  }

  /** Lookup by id finds an order exactly when it is queued at its own side and price, and
      then it is queued nowhere else. */
  lemma {:induction false} IndexAgreement(v: BookVal, mem: Mem, id: nat, x: int)
    requires BookOk(v, mem)
    ensures id in v.index && v.index[id] == x <==>
      && 0 <= x < |mem| && mem[x].orderId == id
      && v.grid.IsValidPrice(mem[x].price)
      && 0 <= TickToIndex(v.grid, mem[x].price) < |v.HalfOf(mem[x].side).queues|
      && x in v.HalfOf(mem[x].side).queues[TickToIndex(v.grid, mem[x].price)]
    ensures id in v.index && v.index[id] == x ==>
      forall side, k :: 0 <= k < |v.HalfOf(side).queues| && x in v.HalfOf(side).queues[k] ==>
        side == mem[x].side && k == TickToIndex(v.grid, mem[x].price)
  {
    OpenBook(v, mem);
    if id in v.index && v.index[id] == x {
      assert EntryOk(v, mem, id);
      HeldWhere(v, mem, x);
      forall side, k | 0 <= k < |v.HalfOf(side).queues| && x in v.HalfOf(side).queues[k]
        ensures side == mem[x].side && k == TickToIndex(v.grid, mem[x].price)
      {
        LevelOf(v, mem, side, k, x);
      }
    }
    if 0 <= x < |mem| && v.grid.IsValidPrice(mem[x].price)
       && 0 <= TickToIndex(v.grid, mem[x].price) < |v.HalfOf(mem[x].side).queues|
       && x in v.HalfOf(mem[x].side).queues[TickToIndex(v.grid, mem[x].price)] {
      assert Holds(v, x);
      assert Indexed(v, mem, x);
    }
  }

  // ------------------------------------------------------------------- edits

  /** Replace level `k` of one side. */
  function Edited(v: BookVal, side: Side, k: nat, lvl: PriceLevel, q: seq<int>, best: int): BookVal
    requires k < |v.HalfOf(side).queues| && k < |v.HalfOf(side).levels|
  {
    var h := v.HalfOf(side);
    v.WithHalf(side, Half(h.levels[k := lvl], best, h.queues[k := q]))
  }

  /** Only slots of the old or the new queue changed. */
  ghost predicate TouchesOnly(mem: Mem, mem': Mem, q: seq<int>, q': seq<int>) {
    |mem| == |mem'| && forall x :: 0 <= x < |mem| && x !in q && x !in q' ==> mem'[x] == mem[x]
  }

  lemma {:induction false} EditHalves(
      v: BookVal, mem: Mem, side: Side, k: nat, lvl: PriceLevel, q: seq<int>, best: int, mem': Mem)
    requires BookOk(v, mem)
    requires k < |v.HalfOf(side).queues|
    requires LevelAt(v.grid, v.inst, side, mem', lvl, q, k)
    requires TouchesOnly(mem, mem', v.HalfOf(side).queues[k], q)
    requires forall x :: x in q && x !in v.HalfOf(side).queues[k] ==> !Holds(v, x)
    requires BestOk(side, best, v.HalfOf(side).queues[k := q])
    ensures var v' := Edited(v, side, k, lvl, q, best);
      HalfOk(v.grid, v.inst, Buy, v'.bids, mem') && HalfOk(v.grid, v.inst, Sell, v'.asks, mem')
  {
    OpenBook(v, mem);
    var h, other := v.HalfOf(side), v.HalfOf(Opposite(side));
    HalfUpdate(v.grid, v.inst, side, h, mem, k, lvl, q, best, mem');
    forall x | 0 <= x < |mem| && !Absent(other.queues, x)
      ensures mem'[x] == mem[x]
    {
      var j :| 0 <= j < |other.queues| && x in other.queues[j];
      LevelOf(v, mem, Opposite(side), j, x);
      if x in h.queues[k] { LevelOf(v, mem, side, k, x); }
      assert Holds(v, x);
    }
    HalfFrame(v.grid, v.inst, Opposite(side), other, mem, mem');
  }

  /** Ids never change while an order is queued. */
  ghost predicate IdsKept(mem: Mem, mem': Mem) {
    |mem| == |mem'| && forall x :: 0 <= x < |mem| ==> mem'[x].orderId == mem[x].orderId
  }

  lemma {:induction false} HoldsEdited(v: BookVal, side: Side, k: nat, lvl: PriceLevel, q: seq<int>, best: int, x: int)
    requires k < |v.HalfOf(side).queues| && k < |v.HalfOf(side).levels|
    ensures x in q ==> Holds(Edited(v, side, k, lvl, q, best), x)
    ensures x !in v.HalfOf(side).queues[k] && x !in q ==>
      (Holds(Edited(v, side, k, lvl, q, best), x) <==> Holds(v, x))
    ensures x in v.HalfOf(side).queues[k] ==> Holds(v, x)
  {
    var qs := v.HalfOf(side).queues;
    var qs' := qs[k := q];
    if x in q { assert x in qs'[k]; }
    if x !in qs[k] && x !in q {
      if !Absent(qs, x) {
        var j :| 0 <= j < |qs| && x in qs[j];
        assert x in qs'[j];
      }
      if !Absent(qs', x) {
        var j :| 0 <= j < |qs'| && x in qs'[j];
        assert x in qs[j];
      }
    }
  }

  /** A slot that left its queue is nowhere in the book. */
  lemma {:induction false} GoneFromBook(
      v: BookVal, mem: Mem, side: Side, k: nat, lvl: PriceLevel, q: seq<int>, best: int, x: int)
    requires BookOk(v, mem)
    requires k < |v.HalfOf(side).queues| && x in v.HalfOf(side).queues[k] && x !in q
    ensures !Holds(Edited(v, side, k, lvl, q, best), x)
  {
    OpenBook(v, mem);
    var v' := Edited(v, side, k, lvl, q, best);
    LevelOf(v, mem, side, k, x);
    forall s: Side, j | 0 <= j < |v'.HalfOf(s).queues|
      ensures x !in v'.HalfOf(s).queues[j]
    {
      if x in v'.HalfOf(s).queues[j] && (s != side || j != k) {
        LevelOf(v, mem, s, j, x);
      }
    }
    assert Absent(v'.HalfOf(Buy).queues, x) && Absent(v'.HalfOf(Sell).queues, x);
  }

  lemma {:induction false} AddKeepsOk(
      v: BookVal, mem: Mem, side: Side, k: nat, lvl: PriceLevel, o: int, best: int, mem': Mem)
    requires BookOk(v, mem)
    requires k < |v.HalfOf(side).queues| && 0 <= o < |mem| && !Holds(v, o)
    requires mem[o].orderId !in v.index
    requires IdsKept(mem, mem')
    requires var q := v.HalfOf(side).queues[k] + [o];
      && LevelAt(v.grid, v.inst, side, mem', lvl, q, k)
      && TouchesOnly(mem, mem', v.HalfOf(side).queues[k], q)
      && BestOk(side, best, v.HalfOf(side).queues[k := q])
    ensures var q := v.HalfOf(side).queues[k] + [o];
            var v' := Edited(v, side, k, lvl, q, best).(index := v.index[mem[o].orderId := o]);
      && BookOk(v', mem')
      && Gains(v, v', o)
  {
    OpenBook(v, mem);
    var q := v.HalfOf(side).queues[k] + [o];
    var w := Edited(v, side, k, lvl, q, best);
    var v' := w.(index := v.index[mem[o].orderId := o]);
    EditHalves(v, mem, side, k, lvl, q, best, mem');
    forall x
      ensures Holds(v', x) <==> Holds(v, x) || x == o
    {
      HoldsEdited(v, side, k, lvl, q, best, x);
      assert Holds(v', x) <==> Holds(w, x);
    }
    AddIndex(v, mem, v', mem', o);
  }

  lemma {:induction false} AddIndex(v: BookVal, mem: Mem, v': BookVal, mem': Mem, o: int)
    requires IndexOk(v, mem) && IdsKept(mem, mem') && 0 <= o < |mem|
    requires mem[o].orderId !in v.index
    requires v'.index == v.index[mem[o].orderId := o]
    requires Gains(v, v', o)
    ensures IndexOk(v', mem')
  {
    forall id | id in v'.index ensures EntryOk(v', mem', id) {
      assert id in v.index ==> EntryOk(v, mem, id);
    }
    forall x | Holds(v', x) ensures Indexed(v', mem', x) {
      assert Holds(v, x) ==> Indexed(v, mem, x);
    }
  }

  /** After a drop the book holds what it held, without the dropped slot. */
  lemma {:induction false} DropHolds(
      v: BookVal, mem: Mem, side: Side, k: nat, lvl: PriceLevel, i: nat, best: int, x: int)
    requires BookOk(v, mem)
    requires k < |v.HalfOf(side).queues| && i < |v.HalfOf(side).queues[k]|
    ensures var o := v.HalfOf(side).queues[k][i];
      Holds(Edited(v, side, k, lvl, Delete(v.HalfOf(side).queues[k], i), best), x) <==> Holds(v, x) && x != o
  {
    OpenBook(v, mem);
    var was := v.HalfOf(side).queues[k];
    var o := was[i];
    var q := Delete(was, i);
    assert LevelAt(v.grid, v.inst, side, mem, v.HalfOf(side).levels[k], was, k);
    assert o !in q;
    HoldsEdited(v, side, k, lvl, q, best, x);
    if x == o {
      GoneFromBook(v, mem, side, k, lvl, q, best, o);
    } else if x in was {
      assert x in q;
    }
  }

  lemma {:induction false} DropKeepsOk(
      v: BookVal, mem: Mem, side: Side, k: nat, lvl: PriceLevel, i: nat, best: int, mem': Mem)
    requires BookOk(v, mem)
    requires k < |v.HalfOf(side).queues| && i < |v.HalfOf(side).queues[k]|
    requires 0 <= v.HalfOf(side).queues[k][i] < |mem|
    requires IdsKept(mem, mem')
    requires var q := Delete(v.HalfOf(side).queues[k], i);
      && LevelAt(v.grid, v.inst, side, mem', lvl, q, k)
      && TouchesOnly(mem, mem', v.HalfOf(side).queues[k], q)
      && BestOk(side, best, v.HalfOf(side).queues[k := q])
    ensures var o := v.HalfOf(side).queues[k][i];
            var q := Delete(v.HalfOf(side).queues[k], i);
            var v' := Edited(v, side, k, lvl, q, best).(index := v.index - {mem[o].orderId});
      && BookOk(v', mem')
      && Loses(v, v', o)
  {
    OpenBook(v, mem);
    var o := v.HalfOf(side).queues[k][i];
    var q := Delete(v.HalfOf(side).queues[k], i);
    var w := Edited(v, side, k, lvl, q, best);
    var v' := w.(index := v.index - {mem[o].orderId});
    EditHalves(v, mem, side, k, lvl, q, best, mem');
    forall x
      ensures Holds(v', x) <==> Holds(v, x) && x != o
    {
      DropHolds(v, mem, side, k, lvl, i, best, x);
      assert Holds(v', x) <==> Holds(w, x);
    }
    DropIndex(v, mem, v', mem', o);
  }

  lemma {:induction false} DropIndex(v: BookVal, mem: Mem, v': BookVal, mem': Mem, o: int)
    requires IndexOk(v, mem) && IdsKept(mem, mem') && 0 <= o < |mem| && Holds(v, o)
    requires v'.index == v.index - {mem[o].orderId}
    requires Loses(v, v', o)
    ensures IndexOk(v', mem')
  {
    forall id | id in v'.index ensures EntryOk(v', mem', id) {
      assert EntryOk(v, mem, id);
    }
    assert Indexed(v, mem, o);
    forall x | Holds(v', x) ensures Indexed(v', mem', x) {
      assert Indexed(v, mem, x);
    }
  }

  lemma {:induction false} ReduceKeepsOk(
      v: BookVal, mem: Mem, side: Side, k: nat, lvl: PriceLevel, mem': Mem)
    requires BookOk(v, mem)
    requires k < |v.HalfOf(side).queues|
    requires IdsKept(mem, mem')
    requires var q := v.HalfOf(side).queues[k];
      LevelAt(v.grid, v.inst, side, mem', lvl, q, k) && TouchesOnly(mem, mem', q, q)
    ensures var v' := Edited(v, side, k, lvl, v.HalfOf(side).queues[k], v.HalfOf(side).best);
      && BookOk(v', mem')
      && HoldsSame(v, v')
  {
    OpenBook(v, mem);
    var h := v.HalfOf(side);
    var q := h.queues[k];
    var v' := Edited(v, side, k, lvl, q, h.best);
    assert h.queues[k := q] == h.queues;
    assert v'.bids.queues == v.bids.queues && v'.asks.queues == v.asks.queues;
    EditHalves(v, mem, side, k, lvl, q, h.best, mem');
    KeepIndex(v, mem, v', mem');
  }

  lemma {:induction false} KeepIndex(v: BookVal, mem: Mem, v': BookVal, mem': Mem)
    requires IndexOk(v, mem) && IdsKept(mem, mem')
    requires v'.index == v.index && HoldsSame(v, v')
    ensures IndexOk(v', mem')
  {
    forall id | id in v'.index ensures EntryOk(v', mem', id) {
      assert EntryOk(v, mem, id);
    }
    forall x | Holds(v', x) ensures Indexed(v', mem', x) {
      assert Indexed(v, mem, x);
    }
  }

  // ---------------------------------------------------------------- the view

  /** `xs` is how the side lists its slots, cut around position `i` of level `k`. */
  lemma {:induction false} ListedAround(side: Side, h: Half, mem: Mem, k: nat, i: nat)
    requires k < |h.queues| && i < |h.queues[k]|
    ensures var q := h.queues[k];
            var a := Orders(mem, Front(side, h.queues, k) + q[..i]);
            var b := Orders(mem, q[i + 1..] + Back(side, h.queues, k));
      Listed(side, h, mem) == a + [RestingAt(mem, q[i])] + b
  {
    var q := h.queues[k];
    FlatSplit(side, h.queues, k);
    assert Flat(side, h.queues)
        == (Front(side, h.queues, k) + q[..i]) + [q[i]] + (q[i + 1..] + Back(side, h.queues, k));
  }

  /** Position of the `i`-th slot of level `k` in the side's list. */
  function Position(side: Side, h: Half, k: nat, i: nat): nat
    requires k < |h.queues|
  {
    |Front(side, h.queues, k)| + i
  }

  lemma {:induction false} DeleteMiddle<T>(a: seq<T>, x: T, b: seq<T>)
    ensures Delete(a + [x] + b, |a|) == a + b
  {
  }

  lemma {:induction false} FindMiddle(a: seq<Resting>, x: Resting, b: seq<Resting>)
    requires forall j :: 0 <= j < |a| ==> a[j].id != x.id
    ensures HasId(a + [x] + b, x.id) && Find(a + [x] + b, x.id) == |a|
  {
    var s := a + [x] + b;
    assert s[|a|] == x;
    assert forall j :: 0 <= j < |a| ==> s[j] == a[j];
  }

  /** No other listed order has the same id, so a search by id finds this position. */
  lemma {:induction false} FoundAt(v: BookVal, mem: Mem, side: Side, k: nat, i: nat)
    requires BookOk(v, mem)
    requires k < |v.HalfOf(side).queues| && i < |v.HalfOf(side).queues[k]|
    ensures var h := v.HalfOf(side); var o := h.queues[k][i]; var s := Listed(side, h, mem);
      && 0 <= o < |mem|
      && Position(side, h, k, i) < |s|
      && s[Position(side, h, k, i)] == RestingAt(mem, o)
      && HasId(s, mem[o].orderId)
      && Find(s, mem[o].orderId) == Position(side, h, k, i)
  {
    OpenBook(v, mem);
    var h := v.HalfOf(side);
    var q := h.queues[k];
    LevelOf(v, mem, side, k, q[i]);
    var ahead := Front(side, h.queues, k) + q[..i];
    var a, b := Orders(mem, ahead), Orders(mem, q[i + 1..] + Back(side, h.queues, k));
    forall j | 0 <= j < |a|
      ensures a[j].id != RestingAt(mem, q[i]).id
    {
      assert ahead[j] in ahead;
      NotSameSlot(v, mem, side, k, i, ahead[j]);
    }
    ListedAround(side, h, mem, k, i);
    FindMiddle(a, RestingAt(mem, q[i]), b);
  }

  lemma {:induction false} NotSameSlot(v: BookVal, mem: Mem, side: Side, k: nat, i: nat, y: int)
    requires BookOk(v, mem)
    requires k < |v.HalfOf(side).queues| && i < |v.HalfOf(side).queues[k]|
    requires var h := v.HalfOf(side);
      y in Front(side, h.queues, k) || y in h.queues[k][..i] || y in h.queues[k][i + 1..] || y in Back(side, h.queues, k)
    ensures y != v.HalfOf(side).queues[k][i]
    ensures 0 <= y < |mem| && RestingAt(mem, y).id != RestingAt(mem, v.HalfOf(side).queues[k][i]).id
  {
    OpenBook(v, mem);
    var h := v.HalfOf(side);
    var q := h.queues[k];
    var o := q[i];
    LevelOf(v, mem, side, k, o);
    assert LevelAt(v.grid, v.inst, side, mem, h.levels[k], q, k);
    var j := k;
    if y in Front(side, h.queues, k) {
      j := FrontLevel(side, h.queues, k, y);
    } else if y in Back(side, h.queues, k) {
      j := BackLevel(side, h.queues, k, y);
    } else {
      assert y in q;
    }
    LevelOf(v, mem, side, j, y);
    assert y != o;
    assert Holds(v, y) && Holds(v, o);
    assert Indexed(v, mem, y) && Indexed(v, mem, o);
  }

  lemma {:induction false} FlatDrop(side: Side, qs: seq<seq<int>>, k: nat, i: nat)
    requires k < |qs| && i < |qs[k]|
    ensures Flat(side, qs[k := Delete(qs[k], i)])
         == (Front(side, qs, k) + qs[k][..i]) + (qs[k][i + 1..] + Back(side, qs, k))
  {
    FlatUpdate(side, qs, k, Delete(qs[k], i));
  }

  /** Dropping a queued slot deletes its order from the list. */
  lemma {:induction false} DropListed(side: Side, h: Half, mem: Mem, k: nat, i: nat, mem': Mem, h': Half)
    requires k < |h.queues| && i < |h.queues[k]|
    requires h'.queues == h.queues[k := Delete(h.queues[k], i)]
    requires forall x :: x in Front(side, h.queues, k) + h.queues[k][..i] ==> RestingAt(mem', x) == RestingAt(mem, x)
    requires forall x :: x in h.queues[k][i + 1..] + Back(side, h.queues, k) ==> RestingAt(mem', x) == RestingAt(mem, x)
    ensures Position(side, h, k, i) < |Listed(side, h, mem)|
    ensures Listed(side, h', mem') == Delete(Listed(side, h, mem), Position(side, h, k, i))
  {
    var q := h.queues[k];
    var a, b := Front(side, h.queues, k) + q[..i], q[i + 1..] + Back(side, h.queues, k);
    ListedAround(side, h, mem, k, i);
    FlatDrop(side, h.queues, k, i);
    OrdersConcat(mem', a, b);
    OrdersSame(mem, mem', a);
    OrdersSame(mem, mem', b);
    DeleteMiddle(Orders(mem, a), RestingAt(mem, q[i]), Orders(mem, b));
  }

  /** Changing only the quantity of a queued slot updates its order in the list. */
  lemma {:induction false} ReduceListed(side: Side, h: Half, mem: Mem, k: nat, i: nat, mem': Mem, h': Half)
    requires k < |h.queues| && i < |h.queues[k]|
    requires h'.queues == h.queues
    requires forall x :: x in Front(side, h.queues, k) + h.queues[k][..i] ==> RestingAt(mem', x) == RestingAt(mem, x)
    requires forall x :: x in h.queues[k][i + 1..] + Back(side, h.queues, k) ==> RestingAt(mem', x) == RestingAt(mem, x)
    ensures Position(side, h, k, i) < |Listed(side, h, mem)|
    ensures Listed(side, h', mem') == Listed(side, h, mem)[Position(side, h, k, i) := RestingAt(mem', h.queues[k][i])]
  {
    var q := h.queues[k];
    ListedAround(side, h, mem, k, i);
    ListedAround(side, h, mem', k, i);
    OrdersSame(mem, mem', Front(side, h.queues, k) + q[..i]);
    OrdersSame(mem, mem', q[i + 1..] + Back(side, h.queues, k));
    UpdateMiddle(Orders(mem, Front(side, h.queues, k) + q[..i]), RestingAt(mem, q[i]), RestingAt(mem', q[i]),
                 Orders(mem, q[i + 1..] + Back(side, h.queues, k)));
  }

  lemma {:induction false} UpdateMiddle<T>(a: seq<T>, x: T, y: T, b: seq<T>)
    ensures (a + [x] + b)[|a| := y] == a + [y] + b
  {
  }

  /** Insertion between orders that are no worse and orders that are strictly worse. */
  lemma {:induction false} InsertBetween(side: Side, a: seq<Resting>, b: seq<Resting>, o: Resting)
    requires forall i :: 0 <= i < |a| ==> !Better(side, o.price, a[i].price)
    requires b == [] || Better(side, o.price, b[0].price)
    ensures Insert(side, a + b, o) == a + [o] + b
  {
    if a == [] {
      assert a + b == b;
    } else {
      InsertBetween(side, a[1..], b, o);
      assert (a + b)[1..] == a[1..] + b;
    }
  }

  /** Prices in front of and inside level `k` are no worse than its price; behind it they are worse. */
  lemma {:induction false} PricesAround(v: BookVal, mem: Mem, side: Side, k: nat, x: int)
    requires BookOk(v, mem)
    requires k < |v.HalfOf(side).queues|
    ensures var h := v.HalfOf(side); var p := IndexToPrice(v.grid, k);
      && (x in Front(side, h.queues, k) + h.queues[k] ==> !Better(side, p, RestingAt(mem, x).price))
      && (x in Back(side, h.queues, k) ==> Better(side, p, RestingAt(mem, x).price))
      && (x in Front(side, h.queues, k) ==> RestingAt(mem, x).price != p)
  {
    OpenBook(v, mem);
    var h := v.HalfOf(side);
    if x in Front(side, h.queues, k) {
      var j := FrontLevel(side, h.queues, k, x);
      LevelOf(v, mem, side, j, x);
      IndexOrder(v.grid, j, k);
      IndexOrder(v.grid, k, j);
    } else if x in h.queues[k] {
      LevelOf(v, mem, side, k, x);
    }
    if x in Back(side, h.queues, k) {
      var j := BackLevel(side, h.queues, k, x);
      LevelOf(v, mem, side, j, x);
      IndexOrder(v.grid, j, k);
      IndexOrder(v.grid, k, j);
    }
  }

  lemma {:induction false} AppendListed(side: Side, h: Half, mem: Mem, k: nat, o: int, mem': Mem, h': Half)
    requires k < |h.queues|
    requires h'.queues == h.queues[k := h.queues[k] + [o]]
    requires forall x :: RestingAt(mem', x) == RestingAt(mem, x)
    ensures var a := Orders(mem, Front(side, h.queues, k) + h.queues[k]);
            var b := Orders(mem, Back(side, h.queues, k));
      Listed(side, h, mem) == a + b && Listed(side, h', mem') == a + [RestingAt(mem, o)] + b
  {
    var ahead := Front(side, h.queues, k) + h.queues[k];
    var back := Back(side, h.queues, k);
    FlatSplit(side, h.queues, k);
    OrdersConcat(mem, ahead, back);
    FlatUpdate(side, h.queues, k, h.queues[k] + [o]);
    assert Flat(side, h'.queues) == ahead + [o] + back;
    OrdersSame(mem, mem', ahead + [o] + back);
  }

  /** Appending to a level inserts behind everything at that price or better. */
  lemma {:induction false} AddListed(v: BookVal, mem: Mem, side: Side, k: nat, o: int, mem': Mem, h': Half)
    requires BookOk(v, mem)
    requires k < |v.HalfOf(side).queues| && 0 <= o < |mem|
    requires mem[o].price == IndexToPrice(v.grid, k)
    requires h'.queues == v.HalfOf(side).queues[k := v.HalfOf(side).queues[k] + [o]]
    requires forall x :: RestingAt(mem', x) == RestingAt(mem, x)
    ensures Listed(side, h', mem') == Insert(side, Listed(side, v.HalfOf(side), mem), RestingAt(mem, o))
  {
    OpenBook(v, mem);
    var h := v.HalfOf(side);
    var ahead := Front(side, h.queues, k) + h.queues[k];
    var back := Back(side, h.queues, k);
    var a, b := Orders(mem, ahead), Orders(mem, back);
    forall i | 0 <= i < |a|
      ensures !Better(side, RestingAt(mem, o).price, a[i].price)
    {
      PricesAround(v, mem, side, k, ahead[i]);
    }
    if b != [] {
      PricesAround(v, mem, side, k, back[0]);
    }
    AppendListed(side, h, mem, k, o, mem', h');
    InsertBetween(side, a, b, RestingAt(mem, o));
  }

  /** The other side's list does not move. */
  lemma {:induction false} OtherListed(v: BookVal, mem: Mem, side: Side, k: nat, i: nat, mem': Mem)
    requires BookOk(v, mem)
    requires k < |v.HalfOf(side).queues| && i < |v.HalfOf(side).queues[k]|
    requires forall x :: x != v.HalfOf(side).queues[k][i] ==> RestingAt(mem', x) == RestingAt(mem, x)
    ensures Listed(Opposite(side), v.HalfOf(Opposite(side)), mem') == Listed(Opposite(side), v.HalfOf(Opposite(side)), mem)
  {
    OpenBook(v, mem);
    var o := v.HalfOf(side).queues[k][i];
    var other := v.HalfOf(Opposite(side));
    var xs := Flat(Opposite(side), other.queues);
    LevelOf(v, mem, side, k, o);
    forall j | 0 <= j < |xs|
      ensures RestingAt(mem', xs[j]) == RestingAt(mem, xs[j])
    {
      InFlat(Opposite(side), other.queues, xs[j]);
      var l :| 0 <= l < |other.queues| && xs[j] in other.queues[l];
      LevelOf(v, mem, Opposite(side), l, xs[j]);
    }
    OrdersSame(mem, mem', xs);
  }

  // ------------------------------------------------------- frames and cursors

  /** A book depends only on the slots it holds. */
  lemma {:induction false} BookFrame(v: BookVal, mem: Mem, mem': Mem)
    requires BookOk(v, mem) && |mem'| == |mem|
    requires forall x :: 0 <= x < |mem| && Holds(v, x) ==> mem'[x] == mem[x]
    ensures BookOk(v, mem')
    ensures ViewOf(v, mem') == ViewOf(v, mem)
  {
    OpenBook(v, mem);
    HalfFrame(v.grid, v.inst, Buy, v.bids, mem, mem');
    HalfFrame(v.grid, v.inst, Sell, v.asks, mem, mem');
    IndexFrame(v, mem, mem');
    ListedFrame(v, mem, mem', Buy);
    ListedFrame(v, mem, mem', Sell);
  }

  lemma {:induction false} IndexFrame(v: BookVal, mem: Mem, mem': Mem)
    requires IndexOk(v, mem) && |mem'| == |mem|
    requires forall x :: 0 <= x < |mem| && Holds(v, x) ==> mem'[x] == mem[x]
    ensures IndexOk(v, mem')
  {
    forall id | id in v.index ensures EntryOk(v, mem', id) {
      assert EntryOk(v, mem, id);
    }
    forall x | Holds(v, x) ensures Indexed(v, mem', x) {
      assert Indexed(v, mem, x);
    }
  }

  lemma {:induction false} ListedFrame(v: BookVal, mem: Mem, mem': Mem, side: Side)
    requires BookOk(v, mem) && |mem'| == |mem|
    requires forall x :: 0 <= x < |mem| && Holds(v, x) ==> mem'[x] == mem[x]
    ensures Listed(side, v.HalfOf(side), mem') == Listed(side, v.HalfOf(side), mem)
  {
    OpenBook(v, mem);
    var xs := Flat(side, v.HalfOf(side).queues);
    forall j | 0 <= j < |xs|
      ensures RestingAt(mem', xs[j]) == RestingAt(mem, xs[j])
    {
      InFlat(side, v.HalfOf(side).queues, xs[j]);
      assert Holds(v, xs[j]);
    }
    OrdersSame(mem, mem', xs);
  }

  lemma {:induction false} LinksKeepView(mem: Mem, mem': Mem)
    requires OnlyLinksChanged(mem, mem')
    ensures forall x :: RestingAt(mem', x) == RestingAt(mem, x)
    ensures IdsKept(mem, mem')
  {
  }

  lemma {:induction false} BestAfterAdd(side: Side, best: int, qs: seq<seq<int>>, k: nat, q: seq<int>)
    requires BestOk(side, best, qs) && k < |qs| && q != []
    ensures BestOk(side, if best == NO_BEST || BetterLevel(side, k, best) then k else best, qs[k := q])
  {
  }

  /** The cursor may only be wrong by pointing at the level that was just drained. */
  ghost predicate MayAdvance(side: Side, best: int, drained: nat, qs: seq<seq<int>>) {
    && drained < |qs| && qs[drained] == []
    && (best != drained ==> BestOk(side, best, qs))
    && (best == drained ==> forall j :: 0 <= j < |qs| && BetterLevel(side, j, drained) ==> qs[j] == [])
  }

  lemma {:induction false} BestAfterDrop(side: Side, best: int, qs: seq<seq<int>>, k: nat, q: seq<int>)
    requires BestOk(side, best, qs) && k < |qs| && qs[k] != []
    ensures q != [] ==> BestOk(side, best, qs[k := q])
    ensures q == [] ==> MayAdvance(side, best, k, qs[k := q])
  {
  }

  ghost predicate EmptyAgree(levels: seq<PriceLevel>, qs: seq<seq<int>>) {
    |levels| == |qs| && forall k :: 0 <= k < |qs| ==> (levels[k].head == NIL <==> qs[k] == [])
  }

  // ------------------------------------------------------------ level quantity

  lemma {:induction false} LevelQtyConcat(a: seq<Resting>, b: seq<Resting>, p: int)
    ensures LevelQty(a + b, p) == LevelQty(a, p) + LevelQty(b, p)
  {
    if a == [] {
      assert a + b == b;
    } else {
      LevelQtyConcat(a[1..], b, p);
      assert (a + b)[1..] == a[1..] + b;
    }
  }

  lemma {:induction false} LevelQtyAll(mem: Mem, xs: seq<int>, p: int)
    requires Slots(mem, xs)
    ensures (forall i :: 0 <= i < |xs| ==> mem[xs[i]].price == p) ==> LevelQty(Orders(mem, xs), p) == SumQty(mem, xs)
    ensures (forall i :: 0 <= i < |xs| ==> mem[xs[i]].price != p) ==> LevelQty(Orders(mem, xs), p) == 0
  {
    if xs != [] {
      LevelQtyAll(mem, xs[1..], p);
      assert Orders(mem, xs)[1..] == Orders(mem, xs[1..]);
    }
  }

  lemma {:induction false} ListedQty(side: Side, h: Half, mem: Mem, k: nat, p: int)
    requires k < |h.queues|
    ensures LevelQty(Listed(side, h, mem), p)
         == LevelQty(Orders(mem, Front(side, h.queues, k)), p) + LevelQty(Orders(mem, h.queues[k]), p)
            + LevelQty(Orders(mem, Back(side, h.queues, k)), p)
  {
    var front, q, back := Front(side, h.queues, k), h.queues[k], Back(side, h.queues, k);
    FlatSplit(side, h.queues, k);
    OrdersConcat(mem, front + q, back);
    OrdersConcat(mem, front, q);
    LevelQtyConcat(Orders(mem, front) + Orders(mem, q), Orders(mem, back), p);
    LevelQtyConcat(Orders(mem, front), Orders(mem, q), p);
  }

  /** A level's total is the quantity the list has at its price. */
  lemma {:induction false} LevelTotal(v: BookVal, mem: Mem, side: Side, k: nat)
    requires BookOk(v, mem)
    requires k < |v.HalfOf(side).queues|
    ensures LevelQty(Listed(side, v.HalfOf(side), mem), IndexToPrice(v.grid, k)) == v.HalfOf(side).levels[k].totalQty
    ensures |v.HalfOf(side).queues[k]| <= v.HalfOf(side).levels[k].totalQty
  {
    OpenBook(v, mem);
    var h := v.HalfOf(side);
    var p := IndexToPrice(v.grid, k);
    var front, q, back := Front(side, h.queues, k), h.queues[k], Back(side, h.queues, k);
    assert LevelAt(v.grid, v.inst, side, mem, h.levels[k], q, k);
    ListedQty(side, h, mem, k, p);
    OtherPrices(v, mem, side, k);
    LevelQtyAll(mem, front, p);
    LevelQtyAll(mem, q, p);
    LevelQtyAll(mem, back, p);
    SumAtLeastLength(mem, q);
  }

  lemma {:induction false} OtherPrices(v: BookVal, mem: Mem, side: Side, k: nat)
    requires BookOk(v, mem)
    requires k < |v.HalfOf(side).queues|
    ensures var xs := Front(side, v.HalfOf(side).queues, k);
      Slots(mem, xs) && forall i :: 0 <= i < |xs| ==> mem[xs[i]].price != IndexToPrice(v.grid, k)
    ensures var xs := Back(side, v.HalfOf(side).queues, k);
      Slots(mem, xs) && forall i :: 0 <= i < |xs| ==> mem[xs[i]].price != IndexToPrice(v.grid, k)
  {
    OpenBook(v, mem);
    var qs := v.HalfOf(side).queues;
    var front, back := Front(side, qs, k), Back(side, qs, k);
    forall i | 0 <= i < |front|
      ensures 0 <= front[i] < |mem| && mem[front[i]].price != IndexToPrice(v.grid, k)
    {
      var j := FrontLevel(side, qs, k, front[i]);
      LevelOf(v, mem, side, j, front[i]);
      IndexOrder(v.grid, j, k);
    }
    forall i | 0 <= i < |back|
      ensures 0 <= back[i] < |mem| && mem[back[i]].price != IndexToPrice(v.grid, k)
    {
      var j := BackLevel(side, qs, k, back[i]);
      LevelOf(v, mem, side, j, back[i]);
      IndexOrder(v.grid, j, k);
    }
  }
}
