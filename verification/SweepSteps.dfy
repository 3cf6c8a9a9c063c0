/** One trade on the slots, and a sweep as a chain of such trades. */
module SweepSteps {
  import opened Types
  import opened Reference
  import opened PriceLevels
  import opened OrderPools
  import opened Halves
  import opened Books
  import opened OrderBooks
  import opened Ownership

  /** What a sweep works on: the slots, the freelist and one book. */
  datatype Snap = Snap(mem: Mem, free: seq<int>, v: BookVal) {
    ghost predicate Ok(a: int) {
      Apart(mem, free, v) && InHand(mem, free, v, a)
    }

    ghost function List(side: Side): seq<Resting> {
      ViewOf(v, mem).SideList(side)
    }
  }

  /** Between two snapshots slots only moved from the book to the freelist, and only the
      book's slots and `a` were written. */
  ghost predicate Moves(sn: Snap, sn': Snap, a: int) {
    && sn'.v.inst == sn.v.inst && sn'.v.grid == sn.v.grid
    && Conserved(sn.free, sn.v, sn'.free, sn'.v)
    && (forall x :: Holds(sn'.v, x) ==> Holds(sn.v, x))
    && Untouched(sn.v, a, sn.mem, sn'.mem)
  }

  lemma {:induction false} MovesTransitive(sn: Snap, mid: Snap, sn': Snap, a: int)
    requires Moves(sn, mid, a) && Moves(mid, sn', a)
    ensures Moves(sn, sn', a)
  {
  }

  /** The list after its first order traded with an aggressor of quantity `q`. */
  function HeadHit(s: seq<Resting>, q: nat): seq<Resting>
    requires s != []
  {
    if s[0].qty <= q then s[1..] else [s[0].(qty := s[0].qty - q)] + s[1..]
  }

  /** What one trade does to the lists, the aggressor's quantity and the freelist's length. */
  ghost predicate TradeView(b: Book, b': Book, opp: Side, q: nat, q': nat, free: nat, free': nat) {
    var s := b.SideList(opp);
    && s != []
    && q' == q - Min(s[0].qty, q)
    && b' == b.WithSide(opp, HeadHit(s, q))
    && free' == free + (if s[0].qty <= q then 1 else 0)
  }

  /** The facets of a trade or a sweep: ownership, what moved, the aggressor's slot, the lists. */
  // The clauses are named one by one so that the solver unfolds only those a proof asks for.
  datatype Facet = OkFacet | MovesFacet | SlotFacet | ListFacet

  ghost predicate TradeFacet(f: Facet, sn: Snap, sn': Snap, a: int, opp: Side) {
    && 0 <= a < |sn.mem| && a < |sn'.mem|
    && match f
       case OkFacet => sn'.Ok(a)
       case MovesFacet => Moves(sn, sn', a)
       case SlotFacet => sn'.mem[a] == sn.mem[a].(quantity := sn'.mem[a].quantity)
       case ListFacet => TradeView(ViewOf(sn.v, sn.mem), ViewOf(sn'.v, sn'.mem), opp,
                                   sn.mem[a].quantity, sn'.mem[a].quantity, |sn.free|, |sn'.free|)
  }

  /** One trade between aggressor `a` and the first order of side `opp`. */
  ghost predicate OneTrade(sn: Snap, sn': Snap, a: int, opp: Side) {
    forall f {:trigger TradeFacet(f, sn, sn', a, opp)} :: TradeFacet(f, sn, sn', a, opp)
  }

  lemma {:induction false} OpenTrade(sn: Snap, sn': Snap, a: int, opp: Side)
    requires OneTrade(sn, sn', a, opp)
    ensures 0 <= a < |sn.mem| && a < |sn'.mem|
    ensures sn'.Ok(a) && Moves(sn, sn', a)
    ensures sn'.mem[a] == sn.mem[a].(quantity := sn'.mem[a].quantity)
    ensures TradeView(ViewOf(sn.v, sn.mem), ViewOf(sn'.v, sn'.mem), opp,
                      sn.mem[a].quantity, sn'.mem[a].quantity, |sn.free|, |sn'.free|)
  {
    assert TradeFacet(OkFacet, sn, sn', a, opp) && TradeFacet(MovesFacet, sn, sn', a, opp);
    assert TradeFacet(SlotFacet, sn, sn', a, opp) && TradeFacet(ListFacet, sn, sn', a, opp);
  }

  lemma {:induction false} WholeView(b: Book, b': Book, opp: Side, q: nat, q': nat, free: nat)
    requires b.SideList(opp) != [] && b.SideList(opp)[0].qty <= q && q' == q - b.SideList(opp)[0].qty
    requires b' == b.WithSide(opp, Delete(b.SideList(opp), 0))
    ensures TradeView(b, b', opp, q, q', free, free + 1)
  {
    assert Delete(b.SideList(opp), 0) == b.SideList(opp)[1..];
  }

  lemma {:induction false} PartView(b: Book, b': Book, opp: Side, q: nat, free: nat)
    requires b.SideList(opp) != [] && b.SideList(opp)[0].qty > q
    requires b' == b.WithSide(opp, b.SideList(opp)[0 := b.SideList(opp)[0].(qty := b.SideList(opp)[0].qty - q)])
    ensures TradeView(b, b', opp, q, 0, free, free)
  {
    assert b'.SideList(opp) == HeadHit(b.SideList(opp), q);
  }

  /** `rest` is the order the code picks: the head of the best level. */
  ghost predicate IsFront(sn: Snap, opp: Side, rest: int) {
    && 0 <= rest < |sn.mem| && Holds(sn.v, rest) && sn.mem[rest].side == opp
    && sn.List(opp) != [] && sn.List(opp)[0] == RestingAt(sn.mem, rest)
    && HasId(sn.List(opp), sn.mem[rest].orderId) && Find(sn.List(opp), sn.mem[rest].orderId) == 0
  }

  /** The aggressor's quantity is written first; the book does not see it. */
  lemma {:induction false} DebitAggressor(sn: Snap, a: int, opp: Side, rest: int, mem1: Mem)
    requires sn.Ok(a) && IsFront(sn, opp, rest)
    requires |mem1| == |sn.mem| && mem1 == sn.mem[a := mem1[a]]
    ensures a != rest && mem1[rest] == sn.mem[rest]
    ensures Snap(mem1, sn.free, sn.v).Ok(a) && IsFront(Snap(mem1, sn.free, sn.v), opp, rest)
    ensures ViewOf(sn.v, mem1) == ViewOf(sn.v, sn.mem)
  {
    WriteInHand(sn.mem, sn.free, sn.v, a, mem1);
  }

  /** The slots after a maker was consumed and its slot released. */
  lemma {:induction false} WholeMoves(sn: Snap, a: int, rest: int, mem1: Mem, v2: BookVal, mem2: Mem, mem3: Mem)
    requires Apart(mem1, sn.free, sn.v) && InHand(mem1, sn.free, sn.v, a) && Holds(sn.v, rest) && a != rest
    requires |mem1| == |sn.mem| && mem1 == sn.mem[a := mem1[a]]
    requires v2.inst == sn.v.inst && v2.grid == sn.v.grid
    requires BookOk(v2, mem2) && Loses(sn.v, v2, rest) && Untouched(sn.v, rest, mem1, mem2)
    requires 0 <= rest < |mem2| && mem3 == mem2[rest := mem2[rest].(next := First(sn.free), prev := NIL)]
    ensures rest !in sn.free && IsFreelist(mem2, sn.free)
    ensures var sn' := Snap(mem3, [rest] + sn.free, v2); sn'.Ok(a) && Moves(sn, sn', a)
    ensures ViewOf(v2, mem3) == ViewOf(v2, mem2) && mem3[a] == mem1[a]
  {
    ReleasedFromBook(mem1, sn.free, sn.v, mem2, v2, rest, mem3);
    assert mem3[a] == mem2[a] == mem1[a];
    assert !Holds(v2, a);
  }

  lemma {:induction false} WholeTrade(sn: Snap, a: int, opp: Side, rest: int, mem1: Mem, v2: BookVal, mem2: Mem, mem3: Mem)
    requires sn.Ok(a) && IsFront(sn, opp, rest)
    requires sn.mem[rest].quantity <= sn.mem[a].quantity
    requires |mem1| == |sn.mem| && mem1 == sn.mem[a := sn.mem[a].(quantity := sn.mem[a].quantity - sn.mem[rest].quantity)]
    requires v2.inst == sn.v.inst && v2.grid == sn.v.grid
    requires BookOk(v2, mem2) && Dropped(sn.v, mem1, v2, mem2, rest)
    requires mem3 == mem2[rest := mem2[rest].(next := First(sn.free), prev := NIL)]
    ensures rest !in sn.free && IsFreelist(mem2, sn.free)
    ensures OneTrade(sn, Snap(mem3, [rest] + sn.free, v2), a, opp)
  {
    DebitAggressor(sn, a, opp, rest, mem1);
    WholeMoves(sn, a, rest, mem1, v2, mem2, mem3);
    WholeView(ViewOf(sn.v, sn.mem), ViewOf(v2, mem3), opp, sn.mem[a].quantity, mem3[a].quantity, |sn.free|);
  }

  /** The slots after a maker was hit for part of its quantity. */
  lemma {:induction false} PartMoves(sn: Snap, a: int, rest: int, mem1: Mem, v2: BookVal, mem2: Mem)
    requires Apart(mem1, sn.free, sn.v) && InHand(mem1, sn.free, sn.v, a) && Holds(sn.v, rest) && a != rest
    requires |mem1| == |sn.mem| && mem1 == sn.mem[a := mem1[a]]
    requires v2.inst == sn.v.inst && v2.grid == sn.v.grid
    requires BookOk(v2, mem2) && HoldsSame(sn.v, v2) && Untouched(sn.v, rest, mem1, mem2)
    ensures IsFreelist(mem2, sn.free)
    ensures var sn' := Snap(mem2, sn.free, v2); sn'.Ok(a) && Moves(sn, sn', a)
    ensures mem2[a] == mem1[a]
  {
    StillApart(mem1, sn.free, sn.v, mem2, v2, rest);
    assert mem2[a] == mem1[a];
    assert !Holds(v2, a);
  }

  lemma {:induction false} PartOrder(mem: Mem, mem1: Mem, mem2: Mem, rest: int, q: nat)
    requires 0 <= rest < |mem| == |mem1| == |mem2| && mem1[rest] == mem[rest]
    requires SameOrder(mem2[rest], mem1[rest]) && mem2[rest].quantity == mem[rest].quantity - q
    ensures RestingAt(mem2, rest) == RestingAt(mem, rest).(qty := RestingAt(mem, rest).qty - q)
  {
  }

  lemma {:induction false} PartTrade(sn: Snap, a: int, opp: Side, rest: int, mem1: Mem, v2: BookVal, mem2: Mem)
    requires sn.Ok(a) && IsFront(sn, opp, rest)
    requires sn.mem[rest].quantity > sn.mem[a].quantity
    requires |mem1| == |sn.mem| && mem1 == sn.mem[a := sn.mem[a].(quantity := 0)]
    requires v2.inst == sn.v.inst && v2.grid == sn.v.grid
    requires BookOk(v2, mem2) && Reduced(sn.v, mem1, v2, mem2, rest)
    requires mem2[rest].quantity == sn.mem[rest].quantity - sn.mem[a].quantity
    ensures IsFreelist(mem2, sn.free)
    ensures OneTrade(sn, Snap(mem2, sn.free, v2), a, opp)
  {
    DebitAggressor(sn, a, opp, rest, mem1);
    PartMoves(sn, a, rest, mem1, v2, mem2);
    ReducedFront(sn, opp, rest, mem1, v2, mem2, sn.mem[a].quantity);
  }

  lemma {:induction false} ReducedFront(sn: Snap, opp: Side, rest: int, mem1: Mem, v2: BookVal, mem2: Mem, q: nat)
    requires IsFront(sn, opp, rest) && q < sn.mem[rest].quantity
    requires |mem1| == |sn.mem| && mem1[rest] == sn.mem[rest] && ViewOf(sn.v, mem1) == ViewOf(sn.v, sn.mem)
    requires Reduced(sn.v, mem1, v2, mem2, rest) && mem2[rest].quantity == sn.mem[rest].quantity - q
    ensures TradeView(ViewOf(sn.v, sn.mem), ViewOf(v2, mem2), opp, q, 0, |sn.free|, |sn.free|)
  {
    PartOrder(sn.mem, mem1, mem2, rest, q);
    PartView(ViewOf(sn.v, sn.mem), ViewOf(v2, mem2), opp, q, |sn.free|);
  }

  // ------------------------------------------------------------- whole sweeps

  lemma {:induction false} ReportsAppend(taker: nat, ts: seq<Trade>, t: Trade)
    ensures SweepReports(taker, ts + [t]) == SweepReports(taker, ts) + TradeReports(taker, t)
  {
    if ts == [] {
      assert ts + [t] == [t];
      assert [t][1..] == [];
    } else {
      ReportsAppend(taker, ts[1..], t);
      assert (ts + [t])[1..] == ts[1..] + [t];
    }
  }

  /** `done` are the trades made so far; what the sweep still has to do from here completes
      exactly what it had to do from the start. */
  ghost predicate SweepSoFar(s0: seq<Resting>, q0: nat, s: seq<Resting>, q: nat, side: Side, limit: Option<int>, done: seq<Trade>) {
    var w := Sweep(s, side, limit, q);
    Sweep(s0, side, limit, q0) == Swept(done + w.trades, w.rest, w.left)
  }

  function TradeAt(s: seq<Resting>, q: nat): Trade
    requires s != []
  {
    Trade(s[0].id, s[0].price, Min(s[0].qty, q), s[0].qty - Min(s[0].qty, q), q - Min(s[0].qty, q))
  }

  lemma {:induction false} SweepAdvances(
      s0: seq<Resting>, q0: nat, s: seq<Resting>, q: nat, side: Side, limit: Option<int>, done: seq<Trade>)
    requires SweepSoFar(s0, q0, s, q, side, limit, done)
    requires q > 0 && s != [] && Crosses(side, limit, s[0].price)
    ensures SweepSoFar(s0, q0, HeadHit(s, q), q - Min(s[0].qty, q), side, limit, done + [TradeAt(s, q)])
  {
    var w := Sweep(s, side, limit, q);
    var w' := Sweep(HeadHit(s, q), side, limit, q - Min(s[0].qty, q));
    assert w.trades == [TradeAt(s, q)] + w'.trades;
    assert done + w.trades == done + [TradeAt(s, q)] + w'.trades;
  }

  /** From book `b0` the sweep has reached book `b`. */
  ghost predicate ProgressList(
      b0: Book, b: Book, free0: nat, free: nat, q0: nat, q: nat, side: Side, limit: Option<int>, done: seq<Trade>)
  {
    var opp := Opposite(side);
    && b == b0.WithSide(opp, b.SideList(opp))
    && free + |b.SideList(opp)| == free0 + |b0.SideList(opp)|
    && SweepSoFar(b0.SideList(opp), q0, b.SideList(opp), q, side, limit, done)
  }

  lemma {:induction false} ProgressListStep(
      b0: Book, b: Book, b': Book, free0: nat, free: nat, free': nat, q0: nat, q: nat, q': nat,
      side: Side, limit: Option<int>, done: seq<Trade>)
    requires ProgressList(b0, b, free0, free, q0, q, side, limit, done)
    requires TradeView(b, b', Opposite(side), q, q', free, free')
    requires q > 0 && Crosses(side, limit, b.SideList(Opposite(side))[0].price)
    ensures ProgressList(b0, b', free0, free', q0, q', side, limit, done + [TradeAt(b.SideList(Opposite(side)), q)])
  {
    var opp := Opposite(side);
    SweepAdvances(b0.SideList(opp), q0, b.SideList(opp), q, side, limit, done);
    assert b'.SideList(opp) == HeadHit(b.SideList(opp), q);
  }

  ghost predicate ProgressFacet(
      f: Facet, sn0: Snap, sn: Snap, a: int, side: Side, limit: Option<int>, done: seq<Trade>)
  {
    && 0 <= a < |sn0.mem| && a < |sn.mem|
    && match f
       case OkFacet => sn.Ok(a)
       case MovesFacet => Moves(sn0, sn, a)
       case SlotFacet => sn.mem[a] == sn0.mem[a].(quantity := sn.mem[a].quantity)
       case ListFacet => ProgressList(ViewOf(sn0.v, sn0.mem), ViewOf(sn.v, sn.mem), |sn0.free|, |sn.free|,
                                      sn0.mem[a].quantity, sn.mem[a].quantity, side, limit, done)
  }

  /** From `sn0` the sweep has reached `sn`. */
  ghost predicate Progress(sn0: Snap, sn: Snap, a: int, side: Side, limit: Option<int>, done: seq<Trade>) {
    forall f {:trigger ProgressFacet(f, sn0, sn, a, side, limit, done)} ::
      ProgressFacet(f, sn0, sn, a, side, limit, done)
  }

  lemma {:induction false} OpenProgress(sn0: Snap, sn: Snap, a: int, side: Side, limit: Option<int>, done: seq<Trade>)
    requires Progress(sn0, sn, a, side, limit, done)
    ensures 0 <= a < |sn0.mem| && a < |sn.mem|
    ensures sn.Ok(a) && Moves(sn0, sn, a)
    ensures sn.mem[a] == sn0.mem[a].(quantity := sn.mem[a].quantity)
    ensures ProgressList(ViewOf(sn0.v, sn0.mem), ViewOf(sn.v, sn.mem), |sn0.free|, |sn.free|,
                         sn0.mem[a].quantity, sn.mem[a].quantity, side, limit, done)
  {
    assert ProgressFacet(OkFacet, sn0, sn, a, side, limit, done) && ProgressFacet(MovesFacet, sn0, sn, a, side, limit, done);
    assert ProgressFacet(SlotFacet, sn0, sn, a, side, limit, done) && ProgressFacet(ListFacet, sn0, sn, a, side, limit, done);
  }

  lemma {:induction false} ProgressStep(
      sn0: Snap, sn: Snap, sn': Snap, a: int, side: Side, limit: Option<int>, done: seq<Trade>)
    requires Progress(sn0, sn, a, side, limit, done)
    requires OneTrade(sn, sn', a, Opposite(side))
    requires 0 <= a < |sn.mem| && sn.mem[a].quantity > 0
    requires sn.List(Opposite(side)) != [] && Crosses(side, limit, sn.List(Opposite(side))[0].price)
    ensures Progress(sn0, sn', a, side, limit, done + [TradeAt(sn.List(Opposite(side)), sn.mem[a].quantity)])
  {
    OpenProgress(sn0, sn, a, side, limit, done);
    OpenTrade(sn, sn', a, Opposite(side));
    MovesTransitive(sn0, sn, sn', a);
    ProgressListStep(
      ViewOf(sn0.v, sn0.mem), ViewOf(sn.v, sn.mem), ViewOf(sn'.v, sn'.mem), |sn0.free|, |sn.free|, |sn'.free|,
      sn0.mem[a].quantity, sn.mem[a].quantity, sn'.mem[a].quantity, side, limit, done);
  }

  ghost predicate SweptFacet(f: Facet, sn0: Snap, sn: Snap, a: int, side: Side, w: Swept) {
    && 0 <= a < |sn0.mem| && a < |sn.mem|
    && match f
       case OkFacet => sn.Ok(a)
       case MovesFacet => Moves(sn0, sn, a)
       case SlotFacet => w.left < TWO_32 && sn.mem[a] == sn0.mem[a].(quantity := w.left)
       case ListFacet =>
         && ViewOf(sn.v, sn.mem) == ViewOf(sn0.v, sn0.mem).WithSide(Opposite(side), w.rest)
         && |sn.free| + |w.rest| == |sn0.free| + |sn0.List(Opposite(side))|
  }

  /** The finished sweep is the reference sweep. */
  ghost predicate SweptTo(sn0: Snap, sn: Snap, a: int, side: Side, w: Swept) {
    forall f {:trigger SweptFacet(f, sn0, sn, a, side, w)} :: SweptFacet(f, sn0, sn, a, side, w)
  }

  lemma {:induction false} OpenSwept(sn0: Snap, sn: Snap, a: int, side: Side, w: Swept)
    requires SweptTo(sn0, sn, a, side, w)
    ensures 0 <= a < |sn0.mem| && a < |sn.mem|
    ensures sn.Ok(a) && Moves(sn0, sn, a)
    ensures w.left < TWO_32 && sn.mem[a] == sn0.mem[a].(quantity := w.left)
    ensures ViewOf(sn.v, sn.mem) == ViewOf(sn0.v, sn0.mem).WithSide(Opposite(side), w.rest)
    ensures |sn.free| + |w.rest| == |sn0.free| + |sn0.List(Opposite(side))|
  {
    assert SweptFacet(OkFacet, sn0, sn, a, side, w) && SweptFacet(MovesFacet, sn0, sn, a, side, w);
    assert SweptFacet(SlotFacet, sn0, sn, a, side, w) && SweptFacet(ListFacet, sn0, sn, a, side, w);
  }

  lemma {:induction false} ProgressEnds(sn0: Snap, sn: Snap, a: int, side: Side, limit: Option<int>, done: seq<Trade>)
    requires Progress(sn0, sn, a, side, limit, done)
    requires 0 <= a < |sn.mem|
    requires var s := sn.List(Opposite(side));
      sn.mem[a].quantity == 0 || s == [] || !Crosses(side, limit, s[0].price)
    ensures 0 <= a < |sn0.mem|
    ensures var w := Sweep(sn0.List(Opposite(side)), side, limit, sn0.mem[a].quantity);
      SweptTo(sn0, sn, a, side, w) && done == w.trades
  {
    OpenProgress(sn0, sn, a, side, limit, done);
    var s := sn.List(Opposite(side));
    var w := Sweep(s, side, limit, sn.mem[a].quantity);
    assert w == Swept([], s, sn.mem[a].quantity);
    assert done + [] == done;
  }
}
