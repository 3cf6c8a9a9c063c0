/** The slab of order slots and its intrusive freelist. */
module OrderPools {
  import opened Types
  import opened PriceLevels

  /** What `Order::reset` leaves in a slot. */
  const BLANK := Order(0, -0x8000_0000_0000_0000, 0, 0, 0, 0xFFFF_FFFF, Buy, LIMIT, New, NIL, NIL, 0)

  /** The `i`-th free slot is in the slab, links to the following one (the last to null), and
      occurs nowhere earlier. */
  ghost predicate FreeAt(mem: Mem, free: seq<int>, i: int)
    requires 0 <= i < |free|
  {
    && 0 <= free[i] < |mem|
    && mem[free[i]].next == NextIn(free, i)
    && mem[free[i]].prev == NIL
    && forall j :: 0 <= j < i ==> free[j] != free[i]
  }

  /** `next` threads the free slots in the order of `free`, without repetition, and ends in null. */
  ghost predicate IsFreelist(mem: Mem, free: seq<int>) {
    forall i {:trigger FreeAt(mem, free, i)} :: 0 <= i < |free| ==> FreeAt(mem, free, i)
  }

  class OrderPool {
    const storage: array<Order>
    var freelistHead: int
    var freeCount: nat
    ghost var free: seq<int>

    ghost predicate Valid()
      reads this, storage
    {
      IsFreelist(storage[..], free) && freelistHead == First(free) && freeCount == |free|
    }

    constructor (capacity: nat)
      requires capacity >= 1
      ensures Valid() && fresh(storage) && storage.Length == capacity
      ensures free == seq(capacity, i => i)
    {
      storage := new Order[capacity](_ => BLANK);
      freelistHead, freeCount, free := NIL, 0, [];
      new;
      BuildFreelist();
    }

    /** Thread every slot, so that slot 0 is handed out first. */
    method BuildFreelist()
      modifies this, storage
      ensures Valid()
      ensures free == seq(storage.Length, i => i)
    {
      freelistHead := NIL;
      freeCount := storage.Length;
      free := [];
      var i := storage.Length;
      while i > 0
        invariant 0 <= i <= storage.Length
        invariant |free| == storage.Length - i
        invariant forall j :: 0 <= j < |free| ==> free[j] == i + j
        invariant IsFreelist(storage[..], free)
        invariant freelistHead == First(free)
        invariant freeCount == storage.Length
      {
        i := i - 1;
        ghost var mem := storage[..];
        storage[i] := storage[i].(next := freelistHead, prev := NIL);
        PushFree(mem, storage[..], free, i);
        freelistHead := i;
        free := [i] + free;
      }
    }

    /** Take a slot, cleared; `NIL` when the pool is exhausted. */
    method Acquire() returns (o: int)
      requires Valid()
      modifies this, storage
      ensures Valid()
      ensures old(free) == [] ==> o == NIL && free == [] && storage[..] == old(storage[..])
      ensures old(free) != [] ==>
        && o == old(free)[0] && free == old(free)[1..] && o !in free
        && 0 <= o < storage.Length
        && storage[..] == old(storage[..])[o := BLANK]
    {
      ghost var mem := storage[..];
      assert free != [] ==> FreeAt(mem, free, 0);
      if freelistHead == NIL {
        return NIL;
      }
      o := freelistHead;
      freelistHead := storage[o].next;
      storage[o] := BLANK;
      freeCount := freeCount - 1;
      PopFree(mem, storage[..], free);
      free := free[1..];
    }

    /** Give a slot back.  The caller must hold it. */
    method Release(o: int)
      requires Valid()
      requires 0 <= o < storage.Length && o !in free
      modifies this, storage
      ensures Valid()
      ensures free == [o] + old(free)
      ensures storage[..] == old(storage[..])[o := old(storage[o]).(next := old(freelistHead), prev := NIL)]
    {
      ghost var mem := storage[..];
      storage[o] := storage[o].(next := freelistHead, prev := NIL);
      PushFree(mem, storage[..], free, o);
      freelistHead := o;
      freeCount := freeCount + 1;
      free := [o] + free;
    }

    /** Every slot becomes free, whoever held it. */
    method Reset()
      modifies this, storage
      ensures Valid()
      ensures free == seq(storage.Length, i => i)
    {
      BuildFreelist();
    }
  }

  lemma {:induction false} PushFree(mem: Mem, mem': Mem, free: seq<int>, o: int)
    requires IsFreelist(mem, free)
    requires 0 <= o < |mem| && o !in free
    requires mem' == mem[o := mem[o].(next := First(free), prev := NIL)]
    ensures IsFreelist(mem', [o] + free)
  {
    var f := [o] + free;
    forall i | 0 <= i < |f|
      ensures FreeAt(mem', f, i)
    {
      if i > 0 {
        assert FreeAt(mem, free, i - 1);
        assert forall j :: 0 < j < i ==> f[j] == free[j - 1];
      }
    }
  }

  lemma {:induction false} PopFree(mem: Mem, mem': Mem, free: seq<int>)
    requires IsFreelist(mem, free) && free != []
    requires 0 <= free[0] < |mem| && |mem'| == |mem| && mem' == mem[free[0] := mem'[free[0]]]
    ensures IsFreelist(mem', free[1..]) && free[0] !in free[1..]
  {
    var f := free[1..];
    forall i | 0 <= i < |f|
      ensures FreeAt(mem', f, i) && f[i] != free[0]
    {
      assert FreeAt(mem, free, i + 1);
      assert forall j :: 0 <= j < i ==> f[j] == free[j + 1];
    }
  }

  /** The freelist depends only on the slots in it. */
  lemma {:induction false} FreelistFrame(mem: Mem, mem': Mem, free: seq<int>)
    requires IsFreelist(mem, free)
    requires |mem'| == |mem|
    requires forall x :: 0 <= x < |mem| && x in free ==> mem'[x] == mem[x]
    ensures IsFreelist(mem', free)
  {
    forall i | 0 <= i < |free|
      ensures FreeAt(mem', free, i)
    {
      assert FreeAt(mem, free, i);
      assert free[i] in free;
    }
  }
}
