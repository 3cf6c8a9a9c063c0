/** Invariants of every run of the reference engine: book order, the uncrossed
    market, slot accounting, and price-time priority of every trade. */
module RunLaws {
  import opened Types
  import opened Folding
  import opened Reference
  import opened SweepLaws

  // ---------------------------------------------------------- book invariant

  ghost predicate Uncrossed(b: Book) {
    b.bids != [] && b.asks != [] ==> b.bids[0].price < b.asks[0].price
  }

  /** Every order of `s` has positive quantity, a price on the grid and a past arrival. */
  ghost predicate SoundOrders(g: Grid, s: seq<Resting>, now: nat)
    requires g.tick > 0
  {
    forall i :: 0 <= i < |s| ==> s[i].qty > 0 && s[i].time <= now && g.IsValidPrice(s[i].price)
  }

  ghost predicate SideOk(g: Grid, side: Side, s: seq<Resting>, now: nat)
    requires g.tick > 0
  {
    SoundOrders(g, s, now) && Prioritised(side, s)
  }

  ghost predicate BookOk(g: Grid, b: Book, now: nat)
    requires g.tick > 0
  {
    SideOk(g, Buy, b.bids, now) && SideOk(g, Sell, b.asks, now) && Uncrossed(b)
  }

  ghost predicate StateOk(st: State, now: nat) {
    && st.books.Keys == st.grids.Keys
    && (forall k :: k in st.grids ==> st.grids[k].WellFormed())
    && (forall k :: k in st.books ==> BookOk(st.grids[k], st.books[k], now))
  }

  /** The clock never runs backwards during the run, starting from `start`. */
  ghost predicate Monotone(start: nat, ms: seq<Stamped>) {
    && (forall i :: 0 <= i < |ms| ==> start <= ms[i].now)
    && (forall i, j :: 0 <= i < j < |ms| ==> ms[i].now <= ms[j].now)
  }

  function ClockAfter(start: nat, ms: seq<Stamped>): nat {
    if ms == [] then start else ms[|ms| - 1].now
  }

  // ------------------------------------------------------------------- sweep

  /** Orders behind the last trade are untouched; the one in front may be smaller. */
  lemma {:induction false} SweepRest(s: seq<Resting>, side: Side, limit: Option<int>, q: nat, i: nat)
    requires i < |Sweep(s, side, limit, q).rest|
    requires Positive(s)
    ensures var r := Sweep(s, side, limit, q).rest; var k := |s| - |r|;
      && r[i] == s[k + i].(qty := r[i].qty)
      && 0 < r[i].qty <= s[k + i].qty
  {
    SweepIsGreedy(s, side, limit, q);
  }

  lemma {:induction false} SweepKeepsSide(g: Grid, s: seq<Resting>, side: Side, limit: Option<int>, q: nat, now: nat)
    requires g.tick > 0
    requires SideOk(g, Opposite(side), s, now)
    ensures SideOk(g, Opposite(side), Sweep(s, side, limit, q).rest, now)
  {
    var r := Sweep(s, side, limit, q).rest;
    var k := |s| - |r|;
    forall i | 0 <= i < |r|
      ensures r[i] == s[k + i].(qty := r[i].qty) && r[i].qty > 0
    {
      SweepRest(s, side, limit, q, i);
    }
  }

  // ------------------------------------------------------------------ insert

  function InsertPos(side: Side, s: seq<Resting>, price: int): (p: nat)
    ensures p <= |s|
    ensures forall i :: 0 <= i < p ==> !Better(side, price, s[i].price)
    ensures p < |s| ==> Better(side, price, s[p].price)
  {
    if s == [] || Better(side, price, s[0].price) then 0 else 1 + InsertPos(side, s[1..], price)
  }

  lemma {:induction false} InsertAt(side: Side, s: seq<Resting>, o: Resting)
    ensures var p := InsertPos(side, s, o.price); Insert(side, s, o) == s[..p] + [o] + s[p..]
  {
    if s != [] && !Better(side, o.price, s[0].price) {
      InsertAt(side, s[1..], o);
      var p := InsertPos(side, s[1..], o.price);
      assert s[..p + 1] == [s[0]] + s[1..][..p];
      assert s[p + 1..] == s[1..][p..];
    }
  }

  lemma {:induction false} InsertKeepsSound(g: Grid, side: Side, s: seq<Resting>, o: Resting)
    requires g.tick > 0
    requires SoundOrders(g, s, o.time) && o.qty > 0 && g.IsValidPrice(o.price)
    ensures SoundOrders(g, Insert(side, s, o), o.time)
  {
    InsertAt(side, s, o);
  }

  /** A newcomer goes behind everything at its price or better and ahead of the rest. */
  lemma {:induction false} InsertKeepsSide(g: Grid, side: Side, s: seq<Resting>, o: Resting)
    requires g.tick > 0
    requires SideOk(g, side, s, o.time)
    requires o.qty > 0 && g.IsValidPrice(o.price)
    ensures SideOk(g, side, Insert(side, s, o), o.time)
  {
    InsertKeepsSound(g, side, s, o);
    InsertAt(side, s, o);
    var p := InsertPos(side, s, o.price);
    var t := Insert(side, s, o);
    forall i, j | 0 <= i < j < |t|
      ensures !Ahead(side, t[j], t[i])
    {
      if i < p && j == p {
        assert t[i] == s[i];
      } else if i == p && j > p {
        assert t[j] == s[j - 1];
        assert !Ahead(side, s[j - 1], s[p]) || j - 1 == p;
      } else {
        var i', j' := if i < p then i else i - 1, if j < p then j else j - 1;
        assert t[i] == s[i'] && t[j] == s[j'];
      }
    }
  }

  lemma {:induction false} DeleteKeepsSide(g: Grid, side: Side, s: seq<Resting>, i: nat, now: nat)
    requires g.tick > 0
    requires i < |s|
    requires SideOk(g, side, s, now)
    ensures SideOk(g, side, Delete(s, i), now)
  {
    var t := Delete(s, i);
    assert forall a :: 0 <= a < |t| ==> t[a] == s[if a < i then a else a + 1];
  }

  // --------------------------------------------------------------- uncrossed

  /** The best price on a side after deleting one order is no better than before. */
  lemma {:induction false} HeadPrice(side: Side, s: seq<Resting>, i: nat)
    requires Prioritised(side, s)
    requires i < |s|
    ensures !Better(side, s[i].price, s[0].price)
  {
    if i > 0 { assert !Ahead(side, s[i], s[0]); }
  }

  lemma {:induction false} SweepKeepsUncrossed(b: Book, side: Side, limit: Option<int>, q: nat)
    requires Uncrossed(b)
    requires Prioritised(Opposite(side), b.SideList(Opposite(side))) && Positive(b.SideList(Opposite(side)))
    ensures Uncrossed(b.WithSide(Opposite(side), Sweep(b.SideList(Opposite(side)), side, limit, q).rest))
  {
    var s := b.SideList(Opposite(side));
    var r := Sweep(s, side, limit, q).rest;
    if r != [] {
      SweepRest(s, side, limit, q, 0);
      HeadPrice(Opposite(side), s, |s| - |r|);
    }
  }

  lemma {:induction false} InsertKeepsUncrossed(b: Book, side: Side, o: Resting)
    requires Uncrossed(b)
    requires var opp := b.SideList(Opposite(side)); opp == [] || !Crosses(side, Some(o.price), opp[0].price)
    ensures Uncrossed(b.WithSide(side, Insert(side, b.SideList(side), o)))
  {
    InsertAt(side, b.SideList(side), o);
  }

  // -------------------------------------------------------------------- step

  lemma {:induction false} LaterIsOk(st: State, now: nat, later: nat)
    requires StateOk(st, now) && now <= later
    ensures StateOk(st, later)
  {
    forall k | k in st.books
      ensures BookOk(st.grids[k], st.books[k], later)
    {
      assert BookOk(st.grids[k], st.books[k], now);
    }
  }

  lemma {:induction false} BookAfterOk(st: State, m: Msg, now: nat)
    requires Known(st, m.instrumentId)
    requires BookOk(st.grids[m.instrumentId], st.books[m.instrumentId], now)
    ensures BookOk(st.grids[m.instrumentId], BookAfter(st, m, now), now)
  {
    var g := st.grids[m.instrumentId];
    var b := st.books[m.instrumentId];
    var side := SideOf(m.side);
    var opp := b.SideList(Opposite(side));
    var w := SweepOf(st, m);
    SweepKeepsSide(g, opp, side, LimitOf(m), m.quantity, now);
    SweepKeepsUncrossed(b, side, LimitOf(m), m.quantity);
    if Rests(st, m) {
      var swept := b.WithSide(Opposite(side), w.rest);
      SweepQuantity(opp, side, LimitOf(m), m.quantity);
      InsertKeepsSide(g, side, swept.SideList(side), Residual(m, w.left, now));
      InsertKeepsUncrossed(swept, side, Residual(m, w.left, now));
    }
  }

  lemma {:induction false} CancelKeepsBook(g: Grid, b: Book, side: Side, i: nat, now: nat)
    requires g.tick > 0
    requires BookOk(g, b, now)
    requires i < |b.SideList(side)|
    ensures BookOk(g, b.WithSide(side, Delete(b.SideList(side), i)), now)
  {
    var s := b.SideList(side);
    var t := Delete(s, i);
    DeleteKeepsSide(g, side, s, i, now);
    if t != [] {
      HeadPrice(side, s, if i == 0 then 1 else 0);
    }
  }

  /** Replacing one book by a sound one. */
  lemma {:induction false} PutBook(st: State, k: nat, b: Book, st': State, now: nat)
    requires StateOk(st, now) && k in st.books && BookOk(st.grids[k], b, now)
    requires st'.grids == st.grids && st'.books == st.books[k := b]
    ensures StateOk(st', now)
  {
    forall j | j in st'.books
      ensures j in st'.grids && st'.grids[j].tick > 0 && BookOk(st'.grids[j], st'.books[j], now)
    {
      assert j != k ==> BookOk(st.grids[j], st.books[j], now);
    }
  }

  lemma {:induction false} StepKeepsOk(st: State, m: Msg, now: nat)
    requires StateOk(st, now)
    ensures StateOk(Step(st, m, now).state, now)
  {
    var k := m.instrumentId;
    if k in st.books {
      assert BookOk(st.grids[k], st.books[k], now);
      if m.kind == NEW_ORDER && Accepted(st, m) {
        BookAfterOk(st, m, now);
        PutBook(st, k, BookAfter(st, m, now), StepNew(st, m, now).state, now);
      } else if m.kind == CANCEL || m.kind == MODIFY {
        CancelKeepsOk(st, m, now);
      }
    }
  }

  lemma {:induction false} CancelKeepsOk(st: State, m: Msg, now: nat)
    requires StateOk(st, now) && m.instrumentId in st.books
    ensures StateOk(StepCancel(st, m).state, now)
  {
    var k := m.instrumentId;
    var b := st.books[k];
    assert BookOk(st.grids[k], b, now);
    match SideOfId(b, m.orderId)
    case None =>
    case Some(side) =>
      var i := Find(b.SideList(side), m.orderId);
      CancelKeepsBook(st.grids[k], b, side, i, now);
      PutBook(st, k, b.WithSide(side, Delete(b.SideList(side), i)), StepCancel(st, m).state, now);
  }

  lemma {:induction false} MonotonePrefix(start: nat, ms: seq<Stamped>, n: nat)
    requires Monotone(start, ms) && n <= |ms|
    ensures Monotone(start, ms[..n])
    ensures start <= ClockAfter(start, ms[..n])
    ensures n < |ms| ==> ClockAfter(start, ms[..n]) <= ms[n].now
  {
  }

  /** In every run, from any sound state: both sides of every book are in price-time
      order, every resting order has positive quantity, and no book is crossed. */
  lemma {:induction false} RunKeepsOk(st: State, start: nat, ms: seq<Stamped>)
    requires StateOk(st, start) && Monotone(start, ms)
    ensures StateOk(Run(st, ms).state, ClockAfter(start, ms))
  {
    if ms != [] {
      var n := |ms| - 1;
      MonotonePrefix(start, ms, n);
      RunKeepsOk(st, start, ms[..n]);
      var before := Run(st, ms[..n]).state;
      LaterIsOk(before, ClockAfter(start, ms[..n]), ms[n].now);
      StepKeepsOk(before, ms[n].msg, ms[n].now);
    }
  }

  // ---------------------------------------------------------------- priority

  /** Every order with priority over a trade's maker was filled completely by an
      earlier trade of the same sweep, so it no longer rests when the maker trades. */
  ghost predicate NoneSkipped(side: Side, s: seq<Resting>, trades: seq<Trade>) {
    forall i, a, b :: 0 <= i < |trades| && 0 <= a < |s| && 0 <= b < |s|
      && trades[i].maker == s[b].id && Ahead(side, s[a], s[b])
      ==> exists j :: 0 <= j < i && trades[j].maker == s[a].id && trades[j].makerLeft == 0
  }

  ghost predicate DistinctIds(s: seq<Resting>) {
    forall i, j :: 0 <= i < j < |s| ==> s[i].id != s[j].id
  }

  lemma {:induction false} SweepSkipsNone(s: seq<Resting>, side: Side, limit: Option<int>, q: nat)
    requires Prioritised(Opposite(side), s) && DistinctIds(s)
    ensures NoneSkipped(Opposite(side), s, Sweep(s, side, limit, q).trades)
  {
    var w := Sweep(s, side, limit, q);
    SweepIsGreedy(s, side, limit, q);
    forall i, a, b | 0 <= i < |w.trades| && 0 <= a < |s| && 0 <= b < |s|
      && w.trades[i].maker == s[b].id && Ahead(Opposite(side), s[a], s[b])
      ensures exists j :: 0 <= j < i && w.trades[j].maker == s[a].id && w.trades[j].makerLeft == 0
    {
      assert w.trades[i].maker == s[i].id;
      assert i == b;
      assert a < b;
      assert ConsumedWhole(s, a, q, w.trades[a]);
    }
  }

  // ----------------------------------------------------------- slot accounting

  function Live(b: Book): nat { |b.bids| + |b.asks| }

  /** The sum of `f` over all books. */
  ghost function Over(f: Book -> nat, books: map<nat, Book>): nat {
    if books == map[] then 0
    else var k :| k in books; f(books[k]) + Over(f, books - {k})
  }

  lemma {:induction false} OverPick(f: Book -> nat, books: map<nat, Book>, k: nat)
    requires k in books
    ensures Over(f, books) == f(books[k]) + Over(f, books - {k})
    decreases |books|
  {
    var j :| j in books && Over(f, books) == f(books[j]) + Over(f, books - {j});
    if j != k {
      OverPick(f, books - {j}, k);
      OverPick(f, books - {k}, j);
      assert books - {j} - {k} == books - {k} - {j};
    }
  }

  lemma {:induction false} OverUpdate(f: Book -> nat, books: map<nat, Book>, k: nat, b: Book)
    requires k in books
    ensures Over(f, books[k := b]) == Over(f, books) - f(books[k]) + f(b)
  {
    OverPick(f, books, k);
    OverPick(f, books[k := b], k);
    assert books[k := b] - {k} == books - {k};
  }

  /** Resting orders over all books. */
  ghost function LiveTotal(books: map<nat, Book>): nat {
    Over(Live, books)
  }

  ghost predicate SlotsAccounted(st: State, capacity: nat) {
    st.free + LiveTotal(st.books) + st.leaked == capacity
  }

  lemma {:induction false} StepAccountsSlots(st: State, m: Msg, now: nat, capacity: nat)
    requires SlotsAccounted(st, capacity)
    ensures SlotsAccounted(Step(st, m, now).state, capacity)
  {
    var k := m.instrumentId;
    if m.kind == NEW_ORDER && Accepted(st, m) {
      var b' := BookAfter(st, m, now);
      OverUpdate(Live, st.books, k, b');
      if Rests(st, m) {
        var side := SideOf(m.side);
        InsertAt(side, st.books[k].SideList(side), Residual(m, SweepOf(st, m).left, now));
      }
    } else if (m.kind == CANCEL || m.kind == MODIFY) && k in st.books {
      var b := st.books[k];
      match SideOfId(b, m.orderId)
      case None =>
      case Some(side) =>
        OverUpdate(Live, st.books, k, b.WithSide(side, Delete(b.SideList(side), Find(b.SideList(side), m.orderId))));
    }
  }

  /** In every run each slot is counted once: free, resting, or leaked. */
  lemma {:induction false} RunAccountsSlots(st: State, ms: seq<Stamped>, capacity: nat)
    requires SlotsAccounted(st, capacity)
    ensures SlotsAccounted(Run(st, ms).state, capacity)
  {
    if ms != [] {
      var n := |ms| - 1;
      RunAccountsSlots(st, ms[..n], capacity);
      StepAccountsSlots(Run(st, ms[..n]).state, ms[n].msg, ms[n].now, capacity);
    }
  }

  // ------------------------------------------------------- isolation, batching

  /** A message touches no book but its own instrument's. */
  lemma {:induction false} RunIsolates(st: State, ms: seq<Stamped>, k: nat)
    requires forall i :: 0 <= i < |ms| ==> ms[i].msg.instrumentId != k
    ensures var st' := Run(st, ms).state;
      (k in st'.books <==> k in st.books) && (k in st.books ==> st'.books[k] == st.books[k])
  {
    if ms != [] {
      RunIsolates(st, ms[..|ms| - 1], k);
    }
  }

  /** Splitting the stream at any point changes neither the state nor the reports. */
  lemma {:induction false} RunSplits(st: State, a: seq<Stamped>, b: seq<Stamped>)
    ensures var first := Run(st, a); var second := Run(first.state, b);
      Run(st, a + b) == Outcome(second.state, first.reports + second.reports)
  {
    FoldSplits(Dispatch, st, a, b);
  }

  /** Processing batch by batch. */
  function RunBatches(st: State, batches: seq<seq<Stamped>>): Outcome
    decreases |batches|
  {
    if batches == [] then Outcome(st, [])
    else
      var first := Run(st, batches[0]);
      var others := RunBatches(first.state, batches[1..]);
      Outcome(others.state, first.reports + others.reports)
  }

  /** Any split of the stream into batches gives the books and reports of submitting
      the messages one by one. */
  lemma {:induction false} BatchTransparency(st: State, batches: seq<seq<Stamped>>)
    ensures RunBatches(st, batches) == Run(st, Concat(batches))
    decreases |batches|
  {
    if batches != [] {
      BatchTransparency(Run(st, batches[0]).state, batches[1..]);
      RunSplits(st, batches[0], Concat(batches[1..]));
    }
  }
}
