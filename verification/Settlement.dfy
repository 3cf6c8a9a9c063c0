/** How a new order ends: its slot released, queued, or left to nobody; and that this is
    what the reference engine does. */
module Settlement {
  import opened Types
  import opened Folding
  import opened Reference
  import opened PriceLevels
  import Ticks
  import opened OrderPools
  import opened Halves
  import opened Books
  import opened OrderBooks
  import opened Ownership
  import opened SweepSteps
  import opened Health

  /** `sn` is `orig` after slot `a` was taken off the freelist and filled in. */
  ghost predicate Taken(orig: Snap, sn: Snap, a: int) {
    && sn.Ok(a)
    && sn.v == orig.v
    && orig.free == [a] + sn.free
    && |sn.mem| == |orig.mem|
    && (forall x :: 0 <= x < |sn.mem| && x != a ==> sn.mem[x] == orig.mem[x])
    && ViewOf(sn.v, sn.mem) == ViewOf(orig.v, orig.mem)
  }

  /** The leaked slots are nobody's. */
  ghost predicate LeaksClear(orig: Snap, leaked: set<int>) {
    forall x :: x in leaked ==> 0 <= x < |orig.mem| && x !in orig.free && !Holds(orig.v, x)
  }

  lemma {:induction false} TakeSlot(orig: Snap, a: int, free: seq<int>, mem: Mem)
    requires Apart(orig.mem, orig.free, orig.v)
    requires orig.free == [a] + free && |mem| == |orig.mem| && 0 <= a < |mem| && mem == orig.mem[a := mem[a]]
    requires IsFreelist(mem, free) && a !in free
    ensures Taken(orig, Snap(mem, free, orig.v), a)
  {
    assert a in orig.free;
    assert !Holds(orig.v, a);
    assert forall x :: x in free ==> x in orig.free;
    BookFrame(orig.v, orig.mem, mem);
  }

  /** What every ending has in common. */
  lemma {:induction false} MovedSlots(orig: Snap, leaked: set<int>, sn: Snap, sn': Snap, a: int)
    requires Taken(orig, sn, a) && LeaksClear(orig, leaked)
    requires sn'.Ok(a) && Moves(sn, sn', a)
    ensures forall x :: (x in sn'.free || x == a || Holds(sn'.v, x)) <==> (x in orig.free || Holds(orig.v, x))
    ensures forall x :: x in leaked ==> 0 <= x < |orig.mem| && x !in sn'.free && x != a && !Holds(sn'.v, x)
    ensures |sn'.mem| == |orig.mem|
    ensures forall x :: 0 <= x < |orig.mem| && x !in orig.free && !Holds(orig.v, x) ==> sn'.mem[x] == orig.mem[x]
  {
    assert forall x :: x in orig.free <==> x == a || x in sn.free;
  }

  lemma {:induction false} EndReleased(orig: Snap, leaked: set<int>, sn: Snap, sn': Snap, a: int, mem': Mem)
    requires Taken(orig, sn, a) && LeaksClear(orig, leaked)
    requires sn'.Ok(a) && Moves(sn, sn', a)
    requires mem' == sn'.mem[a := sn'.mem[a].(next := First(sn'.free), prev := NIL)]
    ensures LocalStep(orig.mem, orig.free, orig.v, leaked, mem', [a] + sn'.free, sn'.v, leaked)
    ensures ViewOf(sn'.v, mem') == ViewOf(sn'.v, sn'.mem)
  {
    MovedSlots(orig, leaked, sn, sn', a);
    PushFree(sn'.mem, mem', sn'.free, a);
    BookFrame(sn'.v, sn'.mem, mem');
    assert forall x :: x in [a] + sn'.free <==> x == a || x in sn'.free;
  }

  lemma {:induction false} EndLeaked(orig: Snap, leaked: set<int>, sn: Snap, sn': Snap, a: int)
    requires Taken(orig, sn, a) && LeaksClear(orig, leaked)
    requires sn'.Ok(a) && Moves(sn, sn', a)
    ensures a !in leaked
    ensures LocalStep(orig.mem, orig.free, orig.v, leaked, sn'.mem, sn'.free, sn'.v, leaked + {a})
  {
    MovedSlots(orig, leaked, sn, sn', a);
  }

  lemma {:induction false} EndRested(orig: Snap, leaked: set<int>, sn: Snap, sn': Snap, a: int, v': BookVal, mem': Mem)
    requires Taken(orig, sn, a) && LeaksClear(orig, leaked)
    requires sn'.Ok(a) && Moves(sn, sn', a)
    requires BookOk(v', mem') && v'.inst == sn'.v.inst && Gains(sn'.v, v', a) && Untouched(sn'.v, a, sn'.mem, mem')
    ensures LocalStep(orig.mem, orig.free, orig.v, leaked, mem', sn'.free, v', leaked)
  {
    MovedSlots(orig, leaked, sn, sn', a);
    FreelistFrame(sn'.mem, mem', sn'.free);
  }

  // ------------------------------------------------- against the reference

  /** The reference state agrees with the snapshot about this instrument and the pool. */
  ghost predicate Mirrors(st: State, k: nat, orig: Snap, leaked: set<int>) {
    && Known(st, k)
    && st.books[k] == ViewOf(orig.v, orig.mem) && st.grids[k] == orig.v.grid
    && st.free == |orig.free| && st.leaked == |leaked|
  }

  /** The slot in hand is the order of message `m`. */
  ghost predicate Carries(o: Order, m: Msg, now: nat) {
    && o.orderId == m.orderId && o.price == m.price && o.quantity == m.quantity && o.time == now
    && o.side == SideOf(m.side) && o.instrumentId == m.instrumentId
  }

  /** A new order is about to be matched: its slot is in hand and the reference agrees. */
  ghost predicate Started(st: State, m: Msg, now: nat, orig: Snap, leaked: set<int>, sn: Snap, a: int) {
    && Mirrors(st, m.instrumentId, orig, leaked)
    && Taken(orig, sn, a)
    && LeaksClear(orig, leaked)
    && Carries(sn.mem[a], m, now)
    && sn.v.inst == m.instrumentId
  }

  lemma {:induction false} StartedSweep(st: State, m: Msg, now: nat, orig: Snap, leaked: set<int>, sn: Snap, a: int)
    requires Started(st, m, now, orig, leaked, sn, a)
    ensures sn.Ok(a) && 0 <= a < |sn.mem| && st.free > 0
    ensures SweepOf(st, m) == Sweep(sn.List(Opposite(SideOf(m.side))), SideOf(m.side), LimitOf(m), sn.mem[a].quantity)
  {
  }

  /** An id that neither list has is not in the index. */
  lemma {:induction false} NotIndexed(v: BookVal, mem: Mem, id: nat)
    requires BookOk(v, mem)
    requires !HasId(ViewOf(v, mem).bids, id) && !HasId(ViewOf(v, mem).asks, id)
    ensures id !in v.index
  {
    if id in v.index {
      OpenBook(v, mem);
      assert EntryOk(v, mem, id);
      var x := v.index[id];
      var i := Locate(v, mem, x);
      FoundAt(v, mem, mem[x].side, Ticks.TickToIndex(v.grid, mem[x].price), i);
    }
  }

  /** After the sweep, an admissible residual may join its level. */
  lemma {:induction false} MayRest(st: State, m: Msg, now: nat, orig: Snap, leaked: set<int>, sn: Snap, sn': Snap, a: int)
    requires Started(st, m, now, orig, leaked, sn, a)
    requires SweptTo(sn, sn', a, SideOf(m.side), SweepOf(st, m))
    requires m.kind == NEW_ORDER && Accepted(st, m) && Admissible(st, m) && Rests(st, m)
    ensures 0 <= a < |sn'.mem| && sn'.mem[a].orderId !in sn'.v.index
    ensures LevelQty(sn'.List(sn'.mem[a].side), sn'.mem[a].price) + sn'.mem[a].quantity < TWO_32
  {
    OpenSwept(sn, sn', a, SideOf(m.side), SweepOf(st, m));
    NotIndexed(sn'.v, sn'.mem, m.orderId);
  }

  // The clauses are named one by one so that the solver unfolds only those a proof asks for.
  datatype Ending = LocalEnding | BookEnding | CountEnding

  ghost predicate EndingOk(
      e: Ending, st: State, m: Msg, now: nat, orig: Snap, leaked: set<int>, sn': Snap, leaked': set<int>)
  {
    var after := StepNew(st, m, now).state;
    match e
    case LocalEnding => LocalStep(orig.mem, orig.free, orig.v, leaked, sn'.mem, sn'.free, sn'.v, leaked')
    case BookEnding => m.instrumentId in after.books && ViewOf(sn'.v, sn'.mem) == after.books[m.instrumentId]
    case CountEnding => |sn'.free| == after.free && |leaked'| == after.leaked && sn'.v.grid == orig.v.grid
  }

  /** The message is finished and the engine is where the reference engine is. */
  ghost predicate Finished(st: State, m: Msg, now: nat, orig: Snap, leaked: set<int>, sn': Snap, leaked': set<int>) {
    forall e {:trigger EndingOk(e, st, m, now, orig, leaked, sn', leaked')} ::
      EndingOk(e, st, m, now, orig, leaked, sn', leaked')
  }

  lemma {:induction false} FinishRejected(
      st: State, m: Msg, now: nat, orig: Snap, leaked: set<int>, sn: Snap, a: int, mem': Mem)
    requires Mirrors(st, m.instrumentId, orig, leaked) && !Accepted(st, m)
    requires Taken(orig, sn, a) && LeaksClear(orig, leaked)
    requires 0 <= a < |sn.mem| && mem' == sn.mem[a := sn.mem[a].(next := First(sn.free), prev := NIL)]
    ensures Finished(st, m, now, orig, leaked, Snap(mem', [a] + sn.free, sn.v), leaked)
  {
    assert Moves(sn, sn, a);
    EndReleased(orig, leaked, sn, sn, a, mem');
  }

  /** With an empty freelist nothing happens but the rejection. */
  lemma {:induction false} FinishExhausted(st: State, m: Msg, now: nat, orig: Snap, leaked: set<int>)
    requires Mirrors(st, m.instrumentId, orig, leaked) && st.free == 0
    requires Apart(orig.mem, orig.free, orig.v) && LeaksClear(orig, leaked)
    ensures Finished(st, m, now, orig, leaked, orig, leaked)
  {
  }

  lemma {:induction false} FinishReleased(
      st: State, m: Msg, now: nat, orig: Snap, leaked: set<int>, sn: Snap, sn': Snap, a: int, mem': Mem)
    requires Mirrors(st, m.instrumentId, orig, leaked) && Accepted(st, m)
    requires Taken(orig, sn, a) && LeaksClear(orig, leaked) && Carries(sn.mem[a], m, now)
    requires SweptTo(sn, sn', a, SideOf(m.side), SweepOf(st, m))
    requires !Rests(st, m) && !Leaks(st, m)
    requires 0 <= a < |sn'.mem| && mem' == sn'.mem[a := sn'.mem[a].(next := First(sn'.free), prev := NIL)]
    ensures Finished(st, m, now, orig, leaked, Snap(mem', [a] + sn'.free, sn'.v), leaked)
  {
    OpenSwept(sn, sn', a, SideOf(m.side), SweepOf(st, m));
    EndReleased(orig, leaked, sn, sn', a, mem');
  }

  lemma {:induction false} FinishLeaked(
      st: State, m: Msg, now: nat, orig: Snap, leaked: set<int>, sn: Snap, sn': Snap, a: int)
    requires Mirrors(st, m.instrumentId, orig, leaked) && Accepted(st, m)
    requires Taken(orig, sn, a) && LeaksClear(orig, leaked) && Carries(sn.mem[a], m, now)
    requires SweptTo(sn, sn', a, SideOf(m.side), SweepOf(st, m))
    requires Leaks(st, m)
    ensures Finished(st, m, now, orig, leaked, sn', leaked + {a})
  {
    OpenSwept(sn, sn', a, SideOf(m.side), SweepOf(st, m));
    EndLeaked(orig, leaked, sn, sn', a);
  }

  lemma {:induction false} FinishRested(
      st: State, m: Msg, now: nat, orig: Snap, leaked: set<int>, sn: Snap, sn': Snap, a: int, v': BookVal, mem': Mem)
    requires Mirrors(st, m.instrumentId, orig, leaked) && Accepted(st, m)
    requires Taken(orig, sn, a) && LeaksClear(orig, leaked) && Carries(sn.mem[a], m, now)
    requires SweptTo(sn, sn', a, SideOf(m.side), SweepOf(st, m))
    requires Rests(st, m)
    requires BookOk(v', mem') && v'.inst == sn'.v.inst && v'.grid == sn'.v.grid
    requires Gains(sn'.v, v', a) && Untouched(sn'.v, a, sn'.mem, mem')
    requires ViewOf(v', mem') == ViewOf(sn'.v, sn'.mem).WithSide(SideOf(m.side),
      Insert(SideOf(m.side), sn'.List(SideOf(m.side)), RestingAt(sn'.mem, a)))
    ensures Finished(st, m, now, orig, leaked, Snap(mem', sn'.free, v'), leaked)
  {
    OpenSwept(sn, sn', a, SideOf(m.side), SweepOf(st, m));
    EndRested(orig, leaked, sn, sn', a, v', mem');
    RestedBook(st, m, now, ViewOf(orig.v, orig.mem), ViewOf(sn'.v, sn'.mem), RestingAt(sn'.mem, a));
  }

  /** The swept book with the residual in it is the reference's book. */
  lemma {:induction false} RestedBook(st: State, m: Msg, now: nat, b: Book, b': Book, o: Resting)
    requires Accepted(st, m) && Rests(st, m) && st.books[m.instrumentId] == b
    requires b' == b.WithSide(Opposite(SideOf(m.side)), SweepOf(st, m).rest)
    requires o == Residual(m, SweepOf(st, m).left, now)
    ensures BookAfter(st, m, now) == b'.WithSide(SideOf(m.side), Insert(SideOf(m.side), b'.SideList(SideOf(m.side)), o))
  {
  }

  // ------------------------------------------------------------- the whole engine

  ghost function GridsOf(vals: map<nat, BookVal>): map<nat, Grid> {
    Mapped((v: BookVal) => v.grid, vals)
  }

  /** The reference state the engine stands for. */
  ghost function StateOf(
      mem: Mem, free: seq<int>, vals: map<nat, BookVal>, leaked: set<int>, fills: nat, rejected: nat): State
  {
    State(GridsOf(vals), ViewAll(vals, mem), |free|, |leaked|, fills, rejected)
  }

  // The clauses are named one by one so that the solver unfolds only those a proof asks for.
  datatype Aspect = OwnersAspect | StateAspect

  ghost predicate AspectOk(
      c: Aspect, st: State, mem: Mem, free: seq<int>, vals: map<nat, BookVal>, leaked: set<int>, fills: nat, rejected: nat)
  {
    match c
    case OwnersAspect => Owned(mem, free, vals, leaked)
    case StateAspect => st == StateOf(mem, free, vals, leaked, fills, rejected)
  }

  /** The engine invariant: every slot has one owner, and the engine stands for state `st`. */
  ghost predicate StandsFor(
      st: State, mem: Mem, free: seq<int>, vals: map<nat, BookVal>, leaked: set<int>, fills: nat, rejected: nat)
  {
    forall c {:trigger AspectOk(c, st, mem, free, vals, leaked, fills, rejected)} ::
      AspectOk(c, st, mem, free, vals, leaked, fills, rejected)
  }

  lemma {:induction false} OpenEngine(
      st: State, mem: Mem, free: seq<int>, vals: map<nat, BookVal>, leaked: set<int>, fills: nat, rejected: nat)
    requires StandsFor(st, mem, free, vals, leaked, fills, rejected)
    ensures Owned(mem, free, vals, leaked) && st == StateOf(mem, free, vals, leaked, fills, rejected)
  {
    assert AspectOk(OwnersAspect, st, mem, free, vals, leaked, fills, rejected);
    assert AspectOk(StateAspect, st, mem, free, vals, leaked, fills, rejected);
  }

  /** What a handler may rely on for instrument `k`. */
  lemma {:induction false} Begin(
      st: State, mem: Mem, free: seq<int>, vals: map<nat, BookVal>, leaked: set<int>, fills: nat, rejected: nat, k: nat)
    requires StandsFor(st, mem, free, vals, leaked, fills, rejected)
    ensures Known(st, k) <==> k in vals
    ensures st.fills == fills && st.rejected == rejected
    ensures k in vals ==>
      && Apart(mem, free, vals[k]) && vals[k].inst == k
      && Mirrors(st, k, Snap(mem, free, vals[k]), leaked)
      && LeaksClear(Snap(mem, free, vals[k]), leaked)
  {
    OpenEngine(st, mem, free, vals, leaked, fills, rejected);
    OpenOwned(mem, free, vals, leaked);
  }

  /** A finished local step is a finished step of the whole engine. */
  lemma {:induction false} WholeStep(
      mem: Mem, free: seq<int>, vals: map<nat, BookVal>, leaked: set<int>, k: nat, sn': Snap, leaked': set<int>)
    requires Owned(mem, free, vals, leaked) && k in vals
    requires LocalStep(mem, free, vals[k], leaked, sn'.mem, sn'.free, sn'.v, leaked')
    requires sn'.v.grid == vals[k].grid
    ensures Owned(sn'.mem, sn'.free, vals[k := sn'.v], leaked')
    ensures ViewAll(vals[k := sn'.v], sn'.mem) == ViewAll(vals, mem)[k := ViewOf(sn'.v, sn'.mem)]
    ensures GridsOf(vals[k := sn'.v]) == GridsOf(vals)
  {
    OwnedStep(mem, free, vals, leaked, k, sn'.mem, sn'.free, sn'.v, leaked');
    ViewAllStep(vals, mem, k, sn'.v, sn'.mem);
  }

  lemma {:induction false} ConcludeNew(
      st: State, mem: Mem, free: seq<int>, vals: map<nat, BookVal>, leaked: set<int>, fills: nat, rejected: nat,
      m: Msg, now: nat, sn': Snap, leaked': set<int>, fills': nat, rejected': nat)
    requires StandsFor(st, mem, free, vals, leaked, fills, rejected) && m.instrumentId in vals
    requires Finished(st, m, now, Snap(mem, free, vals[m.instrumentId]), leaked, sn', leaked')
    requires fills' == StepNew(st, m, now).state.fills && rejected' == StepNew(st, m, now).state.rejected
    ensures StandsFor(StepNew(st, m, now).state, sn'.mem, sn'.free, vals[m.instrumentId := sn'.v], leaked', fills', rejected')
  {
    var k := m.instrumentId;
    var orig := Snap(mem, free, vals[k]);
    OpenEngine(st, mem, free, vals, leaked, fills, rejected);
    assert EndingOk(LocalEnding, st, m, now, orig, leaked, sn', leaked');
    assert EndingOk(BookEnding, st, m, now, orig, leaked, sn', leaked');
    assert EndingOk(CountEnding, st, m, now, orig, leaked, sn', leaked');
    WholeStep(mem, free, vals, leaked, k, sn', leaked');
    StateAfterNew(st, m, now, ViewOf(sn'.v, sn'.mem), |sn'.free|, |leaked'|);
  }

  /** A new order changes only its own book and the counters. */
  lemma {:induction false} StateAfterNew(st: State, m: Msg, now: nat, b: Book, free: nat, leaked: nat)
    requires m.instrumentId in st.books
    requires var after := StepNew(st, m, now).state;
      m.instrumentId in after.books && after.books[m.instrumentId] == b && after.free == free && after.leaked == leaked
    ensures var after := StepNew(st, m, now).state;
      after == State(st.grids, st.books[m.instrumentId := b], free, leaked, after.fills, after.rejected)
  {
    assert !Accepted(st, m) ==> st.books[m.instrumentId := b] == st.books;
  }

  lemma {:induction false} ConcludeUnknown(
      st: State, mem: Mem, free: seq<int>, vals: map<nat, BookVal>, leaked: set<int>, fills: nat, rejected: nat,
      m: Msg, now: nat)
    requires StandsFor(st, mem, free, vals, leaked, fills, rejected) && m.instrumentId !in vals
    ensures StepNew(st, m, now).reports == [RejectReport(m.orderId, m.quantity)]
    ensures StandsFor(StepNew(st, m, now).state, mem, free, vals, leaked, fills, rejected + 1)
  {
    OpenEngine(st, mem, free, vals, leaked, fills, rejected);
  }

  // ---------------------------------------------------------------- cancelling

  /** An id in a side's list is in the index, under a slot of that side. */
  lemma {:induction false} ListedIsIndexed(v: BookVal, mem: Mem, side: Side, id: nat)
    requires BookOk(v, mem) && HasId(ViewOf(v, mem).SideList(side), id)
    ensures id in v.index && 0 <= v.index[id] < |mem| && mem[v.index[id]].side == side
  {
    OpenBook(v, mem);
    var s := ViewOf(v, mem).SideList(side);
    var qs := v.HalfOf(side).queues;
    var j :| 0 <= j < |s| && s[j].id == id;
    var x := Flat(side, qs)[j];
    InFlat(side, qs, x);
    var k :| 0 <= k < |qs| && x in qs[k];
    LevelOf(v, mem, side, k, x);
    assert Holds(v, x);
    assert Indexed(v, mem, x);
  }

  /** The index answers exactly as a search of both lists does. */
  lemma {:induction false} IndexedSide(v: BookVal, mem: Mem, id: nat)
    requires BookOk(v, mem)
    ensures id in v.index ==>
      && 0 <= v.index[id] < |mem| && Holds(v, v.index[id]) && mem[v.index[id]].orderId == id
      && SideOfId(ViewOf(v, mem), id) == Some(mem[v.index[id]].side)
    ensures id !in v.index ==> SideOfId(ViewOf(v, mem), id) == None
  {
    if HasId(ViewOf(v, mem).SideList(Buy), id) { ListedIsIndexed(v, mem, Buy, id); }
    if HasId(ViewOf(v, mem).SideList(Sell), id) { ListedIsIndexed(v, mem, Sell, id); }
    if id in v.index {
      OpenBook(v, mem);
      assert EntryOk(v, mem, id);
      if !HasId(ViewOf(v, mem).bids, id) && !HasId(ViewOf(v, mem).asks, id) {
        NotIndexed(v, mem, id);
      }
    }
  }

  lemma {:induction false} CancelledLocal(
      mem: Mem, free: seq<int>, v: BookVal, leaked: set<int>, o: int, mem1: Mem, v1: BookVal, mem2: Mem)
    requires Apart(mem, free, v) && Holds(v, o) && LeaksClear(Snap(mem, free, v), leaked)
    requires BookOk(v1, mem1) && v1.inst == v.inst && Loses(v, v1, o) && Untouched(v, o, mem, mem1)
    requires 0 <= o < |mem1| && mem2 == mem1[o := mem1[o].(next := First(free), prev := NIL)]
    ensures o !in free && IsFreelist(mem1, free)
    ensures LocalStep(mem, free, v, leaked, mem2, [o] + free, v1, leaked)
    ensures ViewOf(v1, mem2) == ViewOf(v1, mem1)
  {
    ReleasedFromBook(mem, free, v, mem1, v1, o, mem2);
    assert forall x :: x in [o] + free <==> x == o || x in free;
  }

  /** What cancelling `id` did to the book, the freelist's length and the log. */
  ghost predicate CancelDone(b: Book, b': Book, free: nat, free': nat, id: nat, reports: seq<Report>) {
    && free' == free + 1
    && SideOfId(b, id).Some?
    && var side := SideOfId(b, id).value; var s := b.SideList(side);
       && HasId(s, id)
       && b' == b.WithSide(side, Delete(s, Find(s, id)))
       && reports == [CancelReport(id, s[Find(s, id)].qty)]
  }

  lemma {:induction false} ConcludeCancel(
      st: State, mem: Mem, free: seq<int>, vals: map<nat, BookVal>, leaked: set<int>, fills: nat, rejected: nat,
      m: Msg, sn': Snap, reports: seq<Report>)
    requires StandsFor(st, mem, free, vals, leaked, fills, rejected) && m.instrumentId in vals
    requires LocalStep(mem, free, vals[m.instrumentId], leaked, sn'.mem, sn'.free, sn'.v, leaked)
    requires sn'.v.grid == vals[m.instrumentId].grid
    requires CancelDone(ViewOf(vals[m.instrumentId], mem), ViewOf(sn'.v, sn'.mem), |free|, |sn'.free|, m.orderId, reports)
    ensures StepCancel(st, m).reports == reports
    ensures StandsFor(StepCancel(st, m).state, sn'.mem, sn'.free, vals[m.instrumentId := sn'.v], leaked, fills, rejected)
  {
    OpenEngine(st, mem, free, vals, leaked, fills, rejected);
    WholeStep(mem, free, vals, leaked, m.instrumentId, sn', leaked);
  }

  lemma {:induction false} CancelsNothing(
      st: State, mem: Mem, free: seq<int>, vals: map<nat, BookVal>, leaked: set<int>, fills: nat, rejected: nat, m: Msg)
    requires StandsFor(st, mem, free, vals, leaked, fills, rejected)
    requires m.instrumentId in vals ==> m.orderId !in vals[m.instrumentId].index
    ensures StepCancel(st, m).state == st && StepCancel(st, m).reports == []
  {
    OpenEngine(st, mem, free, vals, leaked, fills, rejected);
    OpenOwned(mem, free, vals, leaked);
    if m.instrumentId in vals {
      IndexedSide(vals[m.instrumentId], mem, m.orderId);
    }
  }

  // ------------------------------------------------------ registration and reset

  /** Every book empty, every slot free. */
  ghost function EmptyState(vals: map<nat, BookVal>, capacity: nat, fills: nat, rejected: nat): State {
    State(GridsOf(vals), map k | k in vals :: Book([], []), capacity, 0, fills, rejected)
  }

  ghost predicate AllBlank(vals: map<nat, BookVal>) {
    forall k :: k in vals ==> vals[k].grid.WellFormed() && vals[k] == Blank(vals[k].grid, k)
  }

  /** The same instruments with blank books. */
  ghost function BlankAll(vals: map<nat, BookVal>): map<nat, BookVal>
    requires forall k :: k in vals ==> vals[k].grid.WellFormed()
  {
    map k | k in vals :: Blank(vals[k].grid, k)
  }

  lemma {:induction false} BlankAllOk(vals: map<nat, BookVal>)
    requires forall k :: k in vals ==> vals[k].grid.WellFormed()
    ensures AllBlank(BlankAll(vals)) && GridsOf(BlankAll(vals)) == GridsOf(vals) && BlankAll(vals).Keys == vals.Keys
    ensures forall k :: k in vals ==> BlankAll(vals)[k] == Blank(vals[k].grid, k)
  {
  }

  lemma {:induction false} GridsSound(mem: Mem, vals: map<nat, BookVal>)
    requires BooksSound(mem, vals)
    ensures forall k :: k in vals ==> vals[k].grid.WellFormed()
  {
    forall k | k in vals ensures vals[k].grid.WellFormed() {
      OpenBook(vals[k], mem);
    }
  }

  lemma {:induction false} BooksOfEngine(
      st: State, mem: Mem, free: seq<int>, vals: map<nat, BookVal>, leaked: set<int>, fills: nat, rejected: nat)
    requires StandsFor(st, mem, free, vals, leaked, fills, rejected)
    ensures BooksSound(mem, vals)
  {
    OpenEngine(st, mem, free, vals, leaked, fills, rejected);
    OpenOwned(mem, free, vals, leaked);
  }

  /** With a full freelist and blank books the engine stands for the empty state. */
  lemma {:induction false} EmptyEngine(mem: Mem, free: seq<int>, vals: map<nat, BookVal>, fills: nat, rejected: nat)
    requires IsFreelist(mem, free) && free == seq(|mem|, i => i) && AllBlank(vals)
    ensures StandsFor(EmptyState(vals, |mem|, fills, rejected), mem, free, vals, {}, fills, rejected)
    ensures AllEmpty(EmptyState(vals, |mem|, fills, rejected))
  {
    forall k | k in vals
      ensures BookOk(vals[k], mem) && vals[k].inst == k && ViewOf(vals[k], mem) == Book([], [])
      ensures forall x :: !Holds(vals[k], x)
    {
      BlankOk(vals[k].grid, k, mem);
    }
    forall x | 0 <= x < |mem| ensures x in free {
      assert free[x] == x;
    }
    assert BooksSound(mem, vals) && BooksClear(free, vals, {}) && AllCovered(mem, free, vals, {});
    assert ViewAll(vals, mem) == map k | k in vals :: Book([], []);
  }

  lemma {:induction false} OwnedGrows(mem: Mem, free: seq<int>, vals: map<nat, BookVal>, leaked: set<int>, id: nat, g: Grid)
    requires Owned(mem, free, vals, leaked) && id !in vals && g.WellFormed()
    ensures Owned(mem, free, vals[id := Blank(g, id)], leaked)
    ensures ViewOf(Blank(g, id), mem) == Book([], [])
  {
    OpenOwned(mem, free, vals, leaked);
    BlankOk(g, id, mem);
    var vals' := vals[id := Blank(g, id)];
    forall x | 0 <= x < |mem|
      ensures x in free || x in leaked || InItsBook(mem, vals', x)
    {
      assert x in free || x in leaked || InItsBook(mem, vals, x);
    }
    assert BooksSound(mem, vals') && BooksClear(free, vals', leaked);
  }

  lemma {:induction false} AddedInstrument(
      st: State, mem: Mem, free: seq<int>, vals: map<nat, BookVal>, leaked: set<int>, fills: nat, rejected: nat, id: nat, g: Grid)
    requires StandsFor(st, mem, free, vals, leaked, fills, rejected) && id !in vals && g.WellFormed()
    ensures id !in st.books
    ensures StandsFor(WithInstrument(st, id, g), mem, free, vals[id := Blank(g, id)], leaked, fills, rejected)
  {
    OpenEngine(st, mem, free, vals, leaked, fills, rejected);
    OwnedGrows(mem, free, vals, leaked, id, g);
    MapsGrow(mem, vals, id, Blank(g, id));
  }

  lemma {:induction false} MapsGrow(mem: Mem, vals: map<nat, BookVal>, id: nat, v: BookVal)
    ensures ViewAll(vals[id := v], mem) == ViewAll(vals, mem)[id := ViewOf(v, mem)]
    ensures GridsOf(vals[id := v]) == GridsOf(vals)[id := v.grid]
  {
    MappedGrows((v: BookVal) => ViewOf(v, mem), vals, id, v);
    MappedGrows((v: BookVal) => v.grid, vals, id, v);
  }

  /** Slot ownership, spelled out: no slot is in two places, none is in no place. */
  lemma {:induction false} EachSlotOnce(
      st: State, mem: Mem, free: seq<int>, vals: map<nat, BookVal>, leaked: set<int>, fills: nat, rejected: nat, x: int)
    requires StandsFor(st, mem, free, vals, leaked, fills, rejected) && 0 <= x < |mem|
    ensures x in free || x in leaked || exists k :: k in vals && Holds(vals[k], x)
    ensures !(x in free && x in leaked)
    ensures forall k :: k in vals && Holds(vals[k], x) ==> x !in free && x !in leaked && mem[x].instrumentId == k
    ensures forall i, j :: 0 <= i < j < |free| ==> free[i] != free[j]
    ensures |free| == st.free && |leaked| == st.leaked
  {
    OpenEngine(st, mem, free, vals, leaked, fills, rejected);
    OpenOwned(mem, free, vals, leaked);
    assert x in free || x in leaked || InItsBook(mem, vals, x);
    forall k | k in vals && Holds(vals[k], x)
      ensures mem[x].instrumentId == k
    {
      HeldWhere(vals[k], mem, x);
    }
    forall i, j | 0 <= i < j < |free|
      ensures free[i] != free[j]
    {
      assert FreeAt(mem, free, j);
    }
  }
}
