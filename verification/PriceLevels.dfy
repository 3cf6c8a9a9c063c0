/** Order slots and the intrusive queue of one price level.

    A pointer into the pool's slab is a slot number; `NIL` is the null pointer.  `next`
    and `prev` live in the slot itself, and `next` also carries the freelist. */
module PriceLevels {
  import opened Types

  const NIL: int := -1

  datatype Status = New | Partial | Filled | Cancelled | Rejected

  datatype Order = Order(
    orderId: nat, price: int, time: nat, quantity: U32, origQuantity: U32,
    instrumentId: nat, side: Side, orderType: nat, status: Status,
    next: int, prev: int, clientId: nat)

  type Mem = seq<Order>

  datatype PriceLevel = PriceLevel(head: int, tail: int, price: int, totalQty: U32, orderCount: U32)

  // ---------------------------------------------------------- specification

  function NextIn(q: seq<int>, i: nat): int {
    if i + 1 < |q| then q[i + 1] else NIL
  }

  function PrevIn(q: seq<int>, i: nat): int {
    if 0 < i <= |q| then q[i - 1] else NIL
  }

  function First(q: seq<int>): int { if q == [] then NIL else q[0] }

  function Last(q: seq<int>): int { if q == [] then NIL else q[|q| - 1] }

  ghost predicate Slots(mem: Mem, q: seq<int>) {
    forall i :: 0 <= i < |q| ==> 0 <= q[i] < |mem|
  }

  ghost predicate Distinct(q: seq<int>) {
    forall i, j :: 0 <= i < j < |q| ==> q[i] != q[j]
  }

  /** The links of the slots in `q` thread exactly `q`, forwards and backwards. */
  ghost predicate Linked(mem: Mem, q: seq<int>) {
    && Slots(mem, q)
    && Distinct(q)
    && (forall i, j :: 0 <= i && i + 1 == j && j < |q| ==> mem[q[i]].next == q[j] && mem[q[j]].prev == q[i])
    && (q != [] ==> mem[q[0]].prev == NIL && mem[q[|q| - 1]].next == NIL)
  }

  function QtyAt(mem: Mem, x: int): nat {
    if 0 <= x < |mem| then mem[x].quantity else 0
  }

  function SumQty(mem: Mem, q: seq<int>): nat {
    if q == [] then 0 else QtyAt(mem, q[0]) + SumQty(mem, q[1..])
  }

  /** Level `lvl` is the queue `q`: ends, links and both aggregates agree. */
  ghost predicate IsQueue(mem: Mem, lvl: PriceLevel, q: seq<int>) {
    && Linked(mem, q)
    && lvl.head == First(q) && lvl.tail == Last(q)
    && lvl.totalQty == SumQty(mem, q)
    && lvl.orderCount == |q|
  }

  /** Nothing but links may differ between the two slots. */
  predicate SameButLinks(a: Order, b: Order) {
    a == b.(next := a.next, prev := a.prev)
  }

  ghost predicate OnlyLinksChanged(mem: Mem, mem': Mem) {
    |mem| == |mem'| && forall x :: 0 <= x < |mem| ==> SameButLinks(mem'[x], mem[x])
  }

  /** Slots outside `q` are untouched. */
  ghost predicate UnchangedOutside(mem: Mem, mem': Mem, q: seq<int>) {
    |mem| == |mem'| && forall x :: 0 <= x < |mem| && x !in q ==> mem'[x] == mem[x]
  }

  // -------------------------------------------------------------- sum lemmas

  lemma {:induction false} SumSame(mem: Mem, mem': Mem, q: seq<int>)
    requires forall i :: 0 <= i < |q| ==> QtyAt(mem', q[i]) == QtyAt(mem, q[i])
    ensures SumQty(mem', q) == SumQty(mem, q)
  {
    if q != [] { SumSame(mem, mem', q[1..]); }
  }

  lemma {:induction false} SumConcat(mem: Mem, a: seq<int>, b: seq<int>)
    ensures SumQty(mem, a + b) == SumQty(mem, a) + SumQty(mem, b)
  {
    if a == [] {
      assert a + b == b;
    } else {
      SumConcat(mem, a[1..], b);
      assert (a + b)[1..] == a[1..] + b;
    }
  }

  lemma {:induction false} SumSplit(mem: Mem, q: seq<int>, i: nat)
    requires i < |q|
    ensures SumQty(mem, q) == SumQty(mem, q[..i]) + QtyAt(mem, q[i]) + SumQty(mem, q[i + 1..])
    ensures SumQty(mem, q[..i] + q[i + 1..]) + QtyAt(mem, q[i]) == SumQty(mem, q)
  {
    assert q == q[..i] + ([q[i]] + q[i + 1..]);
    SumConcat(mem, q[..i], [q[i]] + q[i + 1..]);
    SumConcat(mem, q[..i], q[i + 1..]);
    assert ([q[i]] + q[i + 1..])[1..] == q[i + 1..];
  }

  lemma {:induction false} SumAtLeastLength(mem: Mem, q: seq<int>)
    requires forall i :: 0 <= i < |q| ==> QtyAt(mem, q[i]) > 0
    ensures |q| <= SumQty(mem, q)
  {
    if q != [] { SumAtLeastLength(mem, q[1..]); }
  }

  // ------------------------------------------------------------- link lemmas

  lemma {:induction false} LinkedAppend(mem: Mem, mem': Mem, q: seq<int>, o: int)
    requires Linked(mem, q) && 0 <= o < |mem| && o !in q
    requires |mem'| == |mem|
    requires mem'[o].next == NIL && mem'[o].prev == Last(q)
    requires forall i :: 0 <= i < |q| ==> mem'[q[i]].prev == mem[q[i]].prev
    requires forall i :: 0 <= i < |q| ==> mem'[q[i]].next == if i == |q| - 1 then o else mem[q[i]].next
    ensures Linked(mem', q + [o])
  {
  }

  /** Links around the element at position `i`. */
  lemma {:induction false} Neighbours(mem: Mem, q: seq<int>, i: nat)
    requires Linked(mem, q) && i < |q|
    ensures mem[q[i]].next == NextIn(q, i) && mem[q[i]].prev == PrevIn(q, i)
    ensures -1 <= NextIn(q, i) < |mem| && -1 <= PrevIn(q, i) < |mem|
  {
    if i + 1 < |q| { assert 0 <= q[i + 1] < |mem|; }
    if i > 0 { assert 0 <= q[i - 1] < |mem|; }
  }

  lemma {:induction false} LinkedDelete(mem: Mem, mem': Mem, q: seq<int>, i: nat)
    requires Linked(mem, q) && i < |q| && |mem'| == |mem|
    requires forall j :: 0 <= j < |q| && j != i ==>
      mem'[q[j]].next == if j == i - 1 then NextIn(q, i) else mem[q[j]].next
    requires forall j :: 0 <= j < |q| && j != i ==>
      mem'[q[j]].prev == if j == i + 1 then PrevIn(q, i) else mem[q[j]].prev
    ensures Linked(mem', q[..i] + q[i + 1..])
  {
    var r := q[..i] + q[i + 1..];
    assert forall j :: 0 <= j < |r| ==> r[j] == q[if j < i then j else j + 1];
  }

  lemma {:induction false} QueueFrame(mem: Mem, mem': Mem, lvl: PriceLevel, q: seq<int>)
    requires IsQueue(mem, lvl, q)
    requires |mem'| == |mem|
    requires forall i :: 0 <= i < |q| ==> mem'[q[i]] == mem[q[i]]
    ensures IsQueue(mem', lvl, q)
  {
    SumSame(mem, mem', q);
  }

  // ------------------------------------------------------- queue operations

  /** The code subtracts with a floor at zero. */
  function Monus(a: U32, b: U32): U32 {
    if a >= b then a - b else 0
  }

  function Enqueued(mem: Mem, tail: int, o: int): Mem
    requires 0 <= o < |mem| && -1 <= tail < |mem|
  {
    var m := mem[o := mem[o].(next := NIL, prev := tail)];
    if tail == NIL then m else m[tail := m[tail].(next := o)]
  }

  lemma {:induction false} EnqueueQueue(mem: Mem, lvl: PriceLevel, q: seq<int>, o: int, r: PriceLevel)
    requires IsQueue(mem, lvl, q)
    requires 0 <= o < |mem| && o !in q
    requires r.head == (if lvl.tail == NIL then o else lvl.head) && r.tail == o
    requires r.totalQty == lvl.totalQty + mem[o].quantity && r.orderCount == lvl.orderCount + 1
    ensures -1 <= lvl.tail < |mem|
    ensures IsQueue(Enqueued(mem, lvl.tail, o), r, q + [o])
    ensures OnlyLinksChanged(mem, Enqueued(mem, lvl.tail, o))
    ensures UnchangedOutside(mem, Enqueued(mem, lvl.tail, o), q + [o])
  {
    var mem' := Enqueued(mem, lvl.tail, o);
    assert q != [] ==> lvl.tail == q[|q| - 1];
    assert OnlyLinksChanged(mem, mem');
    LinkedAppend(mem, mem', q, o);
    SumSame(mem, mem', q);
    SumConcat(mem', q, [o]);
  }

  /** Append `o` at the tail. */
  method LevelEnqueueTail(st: array<Order>, lvl: PriceLevel, o: int, ghost q: seq<int>) returns (r: PriceLevel)
    requires IsQueue(st[..], lvl, q)
    requires 0 <= o < st.Length && o !in q
    requires lvl.totalQty + st[o].quantity < TWO_32 && lvl.orderCount + 1 < TWO_32
    modifies st
    ensures IsQueue(st[..], r, q + [o])
    ensures r.price == lvl.price
    ensures OnlyLinksChanged(old(st[..]), st[..])
    ensures UnchangedOutside(old(st[..]), st[..], q + [o])
  {
    ghost var mem := st[..];
    assert q != [] ==> lvl.tail == q[|q| - 1];
    st[o] := st[o].(next := NIL, prev := lvl.tail);
    r := lvl;
    if lvl.tail != NIL {
      st[lvl.tail] := st[lvl.tail].(next := o);
    } else {
      r := r.(head := o);
    }
    r := r.(tail := o,
            totalQty := (lvl.totalQty + st[o].quantity) % TWO_32,
            orderCount := (lvl.orderCount + 1) % TWO_32);
    assert st[..] == Enqueued(mem, lvl.tail, o);
    EnqueueQueue(mem, lvl, q, o, r);
  }

  function Spliced(mem: Mem, o: int): Mem
    requires 0 <= o < |mem| && -1 <= mem[o].prev < |mem| && -1 <= mem[o].next < |mem|
  {
    var before, after := mem[o].prev, mem[o].next;
    var m := if before == NIL then mem else mem[before := mem[before].(next := after)];
    var n := if after == NIL then m else m[after := m[after].(prev := before)];
    n[o := n[o].(next := NIL, prev := NIL)]
  }

  /** What the splice does to the slot at position `j` of the queue. */
  lemma {:induction false} SpliceEffect(mem: Mem, q: seq<int>, i: nat, j: nat)
    requires Linked(mem, q) && i < |q| && j < |q| && j != i
    requires -1 <= mem[q[i]].prev < |mem| && -1 <= mem[q[i]].next < |mem|
    ensures var mem' := Spliced(mem, q[i]);
      && mem'[q[j]].next == (if j == i - 1 then NextIn(q, i) else mem[q[j]].next)
      && mem'[q[j]].prev == (if j == i + 1 then PrevIn(q, i) else mem[q[j]].prev)
  {
    Neighbours(mem, q, i);
  }

  lemma {:induction false} SpliceFrame(mem: Mem, q: seq<int>, i: nat)
    requires Linked(mem, q) && i < |q|
    requires -1 <= mem[q[i]].prev < |mem| && -1 <= mem[q[i]].next < |mem|
    ensures OnlyLinksChanged(mem, Spliced(mem, q[i]))
    ensures UnchangedOutside(mem, Spliced(mem, q[i]), q)
  {
    Neighbours(mem, q, i);
    assert mem[q[i]].prev == NIL || mem[q[i]].prev in q;
    assert mem[q[i]].next == NIL || mem[q[i]].next in q;
  }

  lemma {:induction false} SpliceLinks(mem: Mem, q: seq<int>, i: nat)
    requires Linked(mem, q) && i < |q|
    ensures var o := q[i];
      && -1 <= mem[o].prev < |mem| && -1 <= mem[o].next < |mem|
      && Linked(Spliced(mem, o), q[..i] + q[i + 1..])
      && OnlyLinksChanged(mem, Spliced(mem, o))
      && UnchangedOutside(mem, Spliced(mem, o), q)
  {
    Neighbours(mem, q, i);
    var mem' := Spliced(mem, q[i]);
    forall j | 0 <= j < |q| && j != i
      ensures mem'[q[j]].next == if j == i - 1 then NextIn(q, i) else mem[q[j]].next
      ensures mem'[q[j]].prev == if j == i + 1 then PrevIn(q, i) else mem[q[j]].prev
    {
      SpliceEffect(mem, q, i, j);
    }
    LinkedDelete(mem, mem', q, i);
    SpliceFrame(mem, q, i);
  }

  lemma {:induction false} SpliceQueue(mem: Mem, lvl: PriceLevel, q: seq<int>, i: nat, r: PriceLevel)
    requires IsQueue(mem, lvl, q) && i < |q|
    requires r.head == (if mem[q[i]].prev == NIL then mem[q[i]].next else lvl.head)
    requires r.tail == (if mem[q[i]].next == NIL then mem[q[i]].prev else lvl.tail)
    requires r.totalQty == Monus(lvl.totalQty, mem[q[i]].quantity)
    requires r.orderCount == Monus(lvl.orderCount, 1)
    ensures -1 <= mem[q[i]].prev < |mem| && -1 <= mem[q[i]].next < |mem|
    ensures IsQueue(Spliced(mem, q[i]), r, q[..i] + q[i + 1..])
  {
    SpliceLinks(mem, q, i);
    Neighbours(mem, q, i);
    EndsAfterDelete(q, i);
    SumSplit(mem, q, i);
    SumSame(mem, Spliced(mem, q[i]), q[..i] + q[i + 1..]);
  }

  lemma {:induction false} EndsAfterDelete(q: seq<int>, i: nat)
    requires i < |q|
    ensures var r := q[..i] + q[i + 1..];
      && |r| == |q| - 1
      && First(r) == (if i == 0 then NextIn(q, 0) else q[0])
      && Last(r) == (if i == |q| - 1 then PrevIn(q, i) else q[|q| - 1])
  {
  }

  /** Splice out `o`, wherever in the queue it is. */
  method LevelRemove(st: array<Order>, lvl: PriceLevel, o: int, ghost q: seq<int>, ghost i: nat) returns (r: PriceLevel)
    requires IsQueue(st[..], lvl, q)
    requires i < |q| && q[i] == o
    modifies st
    ensures IsQueue(st[..], r, q[..i] + q[i + 1..])
    ensures r.price == lvl.price
    ensures OnlyLinksChanged(old(st[..]), st[..])
    ensures UnchangedOutside(old(st[..]), st[..], q)
    ensures st[o].next == NIL && st[o].prev == NIL
  {
    ghost var mem := st[..];
    SpliceLinks(mem, q, i);
    var before, after := st[o].prev, st[o].next;
    r := lvl;
    if before != NIL {
      st[before] := st[before].(next := after);
    } else {
      r := r.(head := after);
    }
    if after != NIL {
      st[after] := st[after].(prev := before);
    } else {
      r := r.(tail := before);
    }
    r := r.(totalQty := Monus(lvl.totalQty, st[o].quantity), orderCount := Monus(lvl.orderCount, 1));
    st[o] := st[o].(next := NIL, prev := NIL);
    assert st[..] == Spliced(mem, o);
    SpliceQueue(mem, lvl, q, i, r);
  }

  lemma {:induction false} DequeueQueue(mem: Mem, lvl: PriceLevel, q: seq<int>, r: PriceLevel)
    requires IsQueue(mem, lvl, q) && q != []
    requires r.head == mem[q[0]].next && r.tail == (if mem[q[0]].next == NIL then NIL else lvl.tail)
    requires r.totalQty == Monus(lvl.totalQty, mem[q[0]].quantity)
    requires r.orderCount == Monus(lvl.orderCount, 1)
    ensures mem[q[0]].prev == NIL && -1 <= mem[q[0]].next < |mem|
    ensures IsQueue(Spliced(mem, q[0]), r, q[1..])
    ensures OnlyLinksChanged(mem, Spliced(mem, q[0]))
    ensures UnchangedOutside(mem, Spliced(mem, q[0]), q)
  {
    DropFirst(q);
    Neighbours(mem, q, 0);
    SpliceLinks(mem, q, 0);
    SpliceQueue(mem, lvl, q, 0, r);
  }

  lemma {:induction false} DropFirst(q: seq<int>)
    requires q != []
    ensures q[..0] + q[1..] == q[1..]
  {
  }

  /** Remove and return the head; `NIL` when the level is empty. */
  method LevelDequeueHead(st: array<Order>, lvl: PriceLevel, ghost q: seq<int>) returns (o: int, r: PriceLevel)
    requires IsQueue(st[..], lvl, q)
    modifies st
    ensures r.price == lvl.price
    ensures q == [] ==> o == NIL && r == lvl && st[..] == old(st[..])
    ensures q != [] ==>
      && o == q[0]
      && IsQueue(st[..], r, q[1..])
      && OnlyLinksChanged(old(st[..]), st[..])
      && UnchangedOutside(old(st[..]), st[..], q)
      && st[o].next == NIL && st[o].prev == NIL
  {
    ghost var mem := st[..];
    o := lvl.head;
    r := lvl;
    if o == NIL {
      return;
    }
    Neighbours(mem, q, 0);
    r := r.(head := st[o].next);
    if r.head != NIL {
      st[r.head] := st[r.head].(prev := NIL);
    } else {
      r := r.(tail := NIL);
    }
    r := r.(totalQty := Monus(r.totalQty, st[o].quantity), orderCount := Monus(r.orderCount, 1));
    st[o] := st[o].(next := NIL, prev := NIL);
    assert st[..] == Spliced(mem, o);
    DequeueQueue(mem, lvl, q, r);
  }

  lemma {:induction false} SumReduce(mem: Mem, mem': Mem, q: seq<int>, i: nat)
    requires Linked(mem, q) && |mem'| == |mem| && i < |q|
    requires forall j :: 0 <= j < |q| && j != i ==> mem'[q[j]].quantity == mem[q[j]].quantity
    ensures SumQty(mem', q) == SumQty(mem, q) + mem'[q[i]].quantity - mem[q[i]].quantity
    ensures SumQty(mem, q) >= mem[q[i]].quantity
  {
    SumSplit(mem, q, i);
    SumSplit(mem', q, i);
    SumSame(mem, mem', q[..i]);
    SumSame(mem, mem', q[i + 1..]);
  }

  /** Take `delta` off the order's quantity and off the level's total. */
  method LevelReduceQty(st: array<Order>, lvl: PriceLevel, o: int, delta: U32, ghost q: seq<int>, ghost i: nat)
      returns (r: PriceLevel)
    requires IsQueue(st[..], lvl, q)
    requires i < |q| && q[i] == o
    requires delta <= st[o].quantity
    modifies st
    ensures IsQueue(st[..], r, q)
    ensures r == lvl.(totalQty := r.totalQty)
    ensures st[..] == old(st[..])[o := old(st[o]).(quantity := old(st[o]).quantity - delta)]
  {
    ghost var mem := st[..];
    st[o] := st[o].(quantity := Monus(st[o].quantity, delta));
    SumReduce(mem, st[..], q, i);
    r := lvl.(totalQty := Monus(lvl.totalQty, delta));
  }
}
