/** Laws about particular order types over every state and run: fill-or-kill, loss
    of quantity, price-time priority along a run, and equal buying and selling. */
module OrderLaws {
  import opened Arith
  import opened Types
  import opened Folding
  import opened Reference
  import opened SweepLaws
  import opened RunLaws
  import opened Ledger

  // ------------------------------------------------------------ fill-or-kill

  /** Limits for which the fill-or-kill check looks at exactly the crossable levels. */
  predicate FokSafe(g: Grid, side: Side, limit: int)
    requires g.tick > 0
  {
    if side == Buy then g.min <= limit
    else limit <= g.min || limit > g.max || (limit - g.min) % g.tick == 0
  }

  lemma {:induction false} RoundDown(g: Grid, limit: int)
    requires g.WellFormed() && g.min < limit <= g.max
    ensures var p := g.min + ((limit - g.min) / g.tick) * g.tick;
      && g.IsValidPrice(p) && limit - g.tick < p <= limit
      && (p == limit <==> (limit - g.min) % g.tick == 0)
  {
    var d := limit - g.min;
    var n := d / g.tick;
    assert d == n * g.tick + d % g.tick;
    DivModUnique(n * g.tick, n, 0, g.tick);
  }

  lemma {:induction false} SafeBound(g: Grid, side: Side, limit: int)
    requires g.WellFormed() && FokSafe(g, side, limit)
    ensures FokBound(g, side, limit) == limit
  {
    if side == Sell && g.min < limit <= g.max {
      RoundDown(g, limit);
    }
  }

  /** The check never accepts what cannot be filled, whatever the 32-bit sum does; and it
      refuses a fillable order exactly when that sum wraps below the order's quantity. */
  lemma {:induction false} FokAcceptance(st: State, m: Msg)
    requires Known(st, m.instrumentId) && st.free > 0 && m.orderType == FOK
    requires st.grids[m.instrumentId].WellFormed()
    requires FokSafe(st.grids[m.instrumentId], SideOf(m.side), m.price)
    ensures var c := Crossable(st.books[m.instrumentId].SideList(Opposite(SideOf(m.side))), SideOf(m.side), Some(m.price));
      && (Accepted(st, m) ==> m.quantity <= c)
      && (m.quantity <= c && !Accepted(st, m) <==> c % TWO_32 < m.quantity <= c)
      && (c < TWO_32 ==> (Accepted(st, m) <==> m.quantity <= c))
  {
    SafeBound(st.grids[m.instrumentId], SideOf(m.side), m.price);
    var c := Crossable(st.books[m.instrumentId].SideList(Opposite(SideOf(m.side))), SideOf(m.side), Some(m.price));
    assert c == (c / TWO_32) * TWO_32 + c % TWO_32;
    assert c / TWO_32 >= 0;
  }

  /** All or nothing: with a safe limit, a fill-or-kill is rejected leaving every book as it
      was, or executed for its whole quantity. */
  lemma {:induction false} FokAllOrNothing(st: State, m: Msg, now: nat)
    requires StateOk(st, now)
    requires m.kind == NEW_ORDER && m.orderType == FOK
    requires Known(st, m.instrumentId) ==> FokSafe(st.grids[m.instrumentId], SideOf(m.side), m.price)
    ensures var o := Step(st, m, now);
      || (o.reports == [RejectReport(m.orderId, m.quantity)] && o.state.books == st.books)
      || (Accepted(st, m) && SweepOf(st, m).left == 0)
  {
    if Accepted(st, m) {
      FokFills(st, m, now);
    }
  }

  lemma {:induction false} FokFills(st: State, m: Msg, now: nat)
    requires StateOk(st, now)
    requires m.orderType == FOK && Accepted(st, m)
    requires FokSafe(st.grids[m.instrumentId], SideOf(m.side), m.price)
    ensures SweepOf(st, m).left == 0
  {
    var k := m.instrumentId;
    var side := SideOf(m.side);
    var opp := st.books[k].SideList(Opposite(side));
    assert BookOk(st.grids[k], st.books[k], now);
    FokAcceptance(st, m);
    SweepQuantity(opp, side, Some(m.price), m.quantity);
  }

  /** Two levels of 2^31 make the check see nothing: a fillable order is refused. */
  lemma {:induction false} FokWrapRefuses()
    ensures var half := 0x8000_0000;
            var b := Book([], [Resting(1, 10, half, 0), Resting(2, 11, half, 0)]);
            var st := State(map[0 := Grid(10, 20, 1)], map[0 := b], 1, 0, 0, 0);
            var m := Msg(NEW_ORDER, 3, 11, 1, 0, 0, 0, FOK);
      StateOk(st, 0) && Crossable(b.asks, Buy, Some(11)) == TWO_32 && !Accepted(st, m)
  {
    var half := 0x8000_0000;
    var asks := [Resting(1, 10, half, 0), Resting(2, 11, half, 0)];
    assert asks[1..][1..] == [];
    assert Crossable(asks[1..], Buy, Some(11)) == half;
    assert Crossable(asks, Buy, Some(11)) == TWO_32;
  }

  // -------------------------------------------------------------------- loss

  /** What a client can check before sending: a resting price needs a level, and a
      fill-or-kill limit must be one its check handles. */
  predicate Careful(g: Grid, orderType: nat, side: Side, price: int)
    requires g.tick > 0
  {
    && (orderType == LIMIT ==> g.IsValidPrice(price))
    && (orderType == FOK ==> FokSafe(g, side, price))
  }

  /** `m` is such an order, sent in a sound state to an instrument with grid `g`. */
  ghost predicate Sent(g: Grid, orderType: nat, side: Side, price: int, st: State, m: Msg, now: nat) {
    && StateOk(st, now)
    && m.kind == NEW_ORDER && m.orderType == orderType && SideOf(m.side) == side && m.price == price
    && m.instrumentId in st.grids && st.grids[m.instrumentId] == g
  }

  ghost predicate NeverLoses(g: Grid, orderType: nat, side: Side, price: int) {
    forall st, m, now :: Sent(g, orderType, side, price, st, m, now) ==> Lost(st, m) == 0
  }

  /** Quantity disappears without a report for exactly the orders a client could have
      recognised: a limit price without a level, or an unsafe fill-or-kill limit. */
  lemma {:induction false} LossExactly(g: Grid, orderType: nat, side: Side, price: int)
    requires g.WellFormed()
    ensures NeverLoses(g, orderType, side, price) <==> Careful(g, orderType, side, price)
  {
    if Careful(g, orderType, side, price) {
      forall st, m, now | Sent(g, orderType, side, price, st, m, now)
        ensures Lost(st, m) == 0
      {
        if Accepted(st, m) && m.orderType == FOK {
          FokFills(st, m, now);
        }
      }
    } else if orderType == LIMIT {
      LimitLoses(g, side, price);
    } else {
      FokLoses(g, side, price);
    }
  }

  function Solo(g: Grid, b: Book): State {
    State(map[0 := g], map[0 := b], 1, 0, 0, 0)
  }

  function Single(orderType: nat, side: Side, price: int): Msg {
    Msg(NEW_ORDER, 2, price, 1, 0, 0, if side == Buy then 0 else 1, orderType)
  }

  lemma {:induction false} LimitLoses(g: Grid, side: Side, price: int)
    requires g.WellFormed() && !g.IsValidPrice(price)
    ensures !NeverLoses(g, LIMIT, side, price)
  {
    var st := Solo(g, Book([], []));
    var m := Single(LIMIT, side, price);
    assert Sent(g, LIMIT, side, price, st, m, 0);
    assert Lost(st, m) == 1;
  }

  lemma {:induction false} FokLoses(g: Grid, side: Side, price: int)
    requires g.WellFormed() && !FokSafe(g, side, price)
    ensures !NeverLoses(g, FOK, side, price)
  {
    var p := FokBound(g, side, price);
    if side == Sell { RoundDown(g, price); }
    var o := Resting(1, p, 1, 0);
    var b := Book([], []).WithSide(Opposite(side), [o]);
    var st := Solo(g, b);
    var m := Single(FOK, side, price);
    assert b.SideList(Opposite(side)) == [o];
    assert [o][1..] == [];
    assert Crossable([o], side, Some(p)) == 1;
    assert !Crosses(side, Some(price), p);
    assert BookOk(g, b, 0);
    assert Sent(g, FOK, side, price, st, m, 0);
    assert Lost(st, m) == 1;
  }

  // ------------------------------------------------- price-time over a run

  ghost predicate IdsDistinct(b: Book) {
    DistinctIds(b.bids) && DistinctIds(b.asks)
    && (forall i, j :: 0 <= i < |b.bids| && 0 <= j < |b.asks| ==> b.bids[i].id != b.asks[j].id)
  }

  ghost predicate StateDistinct(st: State) {
    forall k :: k in st.books ==> IdsDistinct(st.books[k])
  }

  lemma {:induction false} SweepIds(s: seq<Resting>, side: Side, limit: Option<int>, q: nat, i: nat)
    requires i < |Sweep(s, side, limit, q).rest|
    ensures var r := Sweep(s, side, limit, q).rest; r[i].id == s[|s| - |r| + i].id
  {
    SweepIsGreedy(s, side, limit, q);
  }

  lemma {:induction false} SweepKeepsDistinct(b: Book, side: Side, limit: Option<int>, q: nat)
    requires IdsDistinct(b)
    ensures IdsDistinct(b.WithSide(Opposite(side), Sweep(b.SideList(Opposite(side)), side, limit, q).rest))
  {
    var s := b.SideList(Opposite(side));
    var r := Sweep(s, side, limit, q).rest;
    forall i | 0 <= i < |r| ensures r[i].id == s[|s| - |r| + i].id {
      SweepIds(s, side, limit, q, i);
    }
  }

  /** Every order of the longer list is the newcomer or was there. */
  lemma {:induction false} InsertedAt(side: Side, s: seq<Resting>, o: Resting, i: nat)
    requires i < |s| + 1
    ensures var p := InsertPos(side, s, o.price); var t := Insert(side, s, o);
      |t| == |s| + 1 && p <= |s| && t[i] == if i == p then o else s[if i < p then i else i - 1]
  {
    InsertAt(side, s, o);
  }

  lemma {:induction false} InsertDistinct(side: Side, s: seq<Resting>, o: Resting)
    requires DistinctIds(s) && !HasId(s, o.id)
    ensures DistinctIds(Insert(side, s, o))
  {
    var t := Insert(side, s, o);
    InsertedAt(side, s, o, 0);
    forall i, j | 0 <= i < j < |t| ensures t[i].id != t[j].id {
      InsertedAt(side, s, o, i);
      InsertedAt(side, s, o, j);
    }
  }

  lemma {:induction false} InsertKeepsDistinct(b: Book, side: Side, o: Resting)
    requires IdsDistinct(b)
    requires !HasId(b.bids, o.id) && !HasId(b.asks, o.id)
    ensures IdsDistinct(b.WithSide(side, Insert(side, b.SideList(side), o)))
  {
    var s, other := b.SideList(side), b.SideList(Opposite(side));
    var t := Insert(side, s, o);
    InsertDistinct(side, s, o);
    InsertedAt(side, s, o, 0);
    forall i, x | 0 <= i < |t| && 0 <= x < |other| ensures t[i].id != other[x].id {
      InsertedAt(side, s, o, i);
    }
  }

  lemma {:induction false} StepKeepsDistinct(st: State, m: Msg, now: nat)
    requires StateDistinct(st) && Admissible(st, m)
    ensures StateDistinct(Step(st, m, now).state)
  {
    var k := m.instrumentId;
    if k in st.books {
      var b := st.books[k];
      if m.kind == NEW_ORDER && Accepted(st, m) {
        var side := SideOf(m.side);
        var w := SweepOf(st, m);
        SweepKeepsDistinct(b, side, LimitOf(m), m.quantity);
        if Rests(st, m) {
          InsertKeepsDistinct(b.WithSide(Opposite(side), w.rest), side, Residual(m, w.left, now));
        }
      } else if m.kind == CANCEL || m.kind == MODIFY {
        match SideOfId(b, m.orderId)
        case None =>
        case Some(side) =>
          DeleteKeepsDistinct(b, side, Find(b.SideList(side), m.orderId));
      }
    }
  }

  lemma {:induction false} DeleteKeepsDistinct(b: Book, side: Side, i: nat)
    requires IdsDistinct(b) && i < |b.SideList(side)|
    ensures IdsDistinct(b.WithSide(side, Delete(b.SideList(side), i)))
  {
    var s := b.SideList(side);
    var t := Delete(s, i);
    assert forall a :: 0 <= a < |t| ==> t[a] == s[if a < i then a else a + 1];
  }

  lemma {:induction false} RunKeepsDistinct(st: State, ms: seq<Stamped>)
    requires StateDistinct(st) && AdmissibleRun(st, ms)
    ensures StateDistinct(Run(st, ms).state)
  {
    if ms != [] {
      var n := |ms| - 1;
      forall i | 0 <= i < n ensures Admissible(Run(st, ms[..n][..i]).state, ms[..n][i].msg) {
        assert ms[..n][..i] == ms[..i];
      }
      RunKeepsDistinct(st, ms[..n]);
      StepKeepsDistinct(Run(st, ms[..n]).state, ms[n].msg, ms[n].now);
    }
  }

  /** Price-time priority at every message of every run: no trade passes over an order
      that rests at a better price, or at the same price from an earlier time. */
  lemma {:induction false} RunRespectsPriority(st: State, start: nat, ms: seq<Stamped>, j: nat)
    requires StateOk(st, start) && StateDistinct(st)
    requires Monotone(start, ms) && AdmissibleRun(st, ms)
    requires j < |ms|
    ensures var before := Run(st, ms[..j]).state; var m := ms[j].msg; var side := SideOf(m.side);
      Accepted(before, m) ==>
        NoneSkipped(Opposite(side), before.books[m.instrumentId].SideList(Opposite(side)), SweepOf(before, m).trades)
  {
    var before := Run(st, ms[..j]).state;
    MonotonePrefix(start, ms, j);
    RunKeepsOk(st, start, ms[..j]);
    forall i | 0 <= i < j ensures Admissible(Run(st, ms[..j][..i]).state, ms[..j][i].msg) {
      assert ms[..j][..i] == ms[..i];
    }
    RunKeepsDistinct(st, ms[..j]);
    var m := ms[j].msg;
    if Accepted(before, m) {
      var b := before.books[m.instrumentId];
      assert BookOk(before.grids[m.instrumentId], b, ClockAfter(start, ms[..j]));
      SweepSkipsNone(b.SideList(Opposite(SideOf(m.side))), SideOf(m.side), LimitOf(m), m.quantity);
    }
  }

  // ------------------------------------------------------ bought equals sold

  /** Executed quantity of orders on `side`, given the ids that were sent as buys. */
  function TradedOn(buyers: set<nat>, side: Side): Report -> nat {
    (r: Report) => if (r.orderId in buyers) == (side == Buy) then r.quantity else 0
  }

  ghost predicate OnSide(buyers: set<nat>, side: Side, s: seq<Resting>) {
    forall i :: 0 <= i < |s| ==> (s[i].id in buyers) == (side == Buy)
  }

  ghost predicate BookSides(buyers: set<nat>, b: Book) {
    OnSide(buyers, Buy, b.bids) && OnSide(buyers, Sell, b.asks)
  }

  ghost predicate StateSides(buyers: set<nat>, st: State) {
    forall k :: k in st.books ==> BookSides(buyers, st.books[k])
  }

  ghost predicate RunSides(buyers: set<nat>, ms: seq<Stamped>) {
    forall i :: 0 <= i < |ms| && ms[i].msg.kind == NEW_ORDER ==> (ms[i].msg.orderId in buyers) == (SideOf(ms[i].msg.side) == Buy)
  }

  lemma {:induction false} SweepBalances(
      buyers: set<nat>, s: seq<Resting>, side: Side, limit: Option<int>, q: nat, taker: nat)
    requires OnSide(buyers, Opposite(side), s) && (taker in buyers) == (side == Buy)
    ensures var w := Sweep(s, side, limit, q); var log := SweepReports(taker, w.trades);
      && Tally(TradedOn(buyers, Buy), log) == Tally(TradedOn(buyers, Sell), log)
      && OnSide(buyers, Opposite(side), w.rest)
    decreases |s|
  {
    if q > 0 && s != [] && Crosses(side, limit, s[0].price) {
      SweepTally(TradedOn(buyers, Buy), s, side, limit, q, taker);
      SweepTally(TradedOn(buyers, Sell), s, side, limit, q, taker);
      if s[0].qty <= q {
        SweepBalances(buyers, s[1..], side, limit, q - s[0].qty, taker);
      }
    }
  }

  lemma {:induction false} InsertOnSide(buyers: set<nat>, side: Side, s: seq<Resting>, o: Resting)
    requires OnSide(buyers, side, s) && (o.id in buyers) == (side == Buy)
    ensures OnSide(buyers, side, Insert(side, s, o))
  {
    InsertAt(side, s, o);
  }

  lemma {:induction false} NewKeepsSides(buyers: set<nat>, st: State, m: Msg, now: nat)
    requires Accepted(st, m) && (m.orderId in buyers) == (SideOf(m.side) == Buy)
    requires BookSides(buyers, st.books[m.instrumentId])
    ensures BookSides(buyers, BookAfter(st, m, now))
  {
    var b := st.books[m.instrumentId];
    var side := SideOf(m.side);
    var w := SweepOf(st, m);
    SweepBalances(buyers, b.SideList(Opposite(side)), side, LimitOf(m), m.quantity, m.orderId);
    if Rests(st, m) {
      InsertOnSide(buyers, side, b.SideList(side), Residual(m, w.left, now));
    }
  }

  lemma {:induction false} NewBalances(buyers: set<nat>, st: State, m: Msg)
    requires Accepted(st, m) && (m.orderId in buyers) == (SideOf(m.side) == Buy)
    requires BookSides(buyers, st.books[m.instrumentId])
    ensures var log := ReportsAfter(st, m); Tally(TradedOn(buyers, Buy), log) == Tally(TradedOn(buyers, Sell), log)
  {
    var side := SideOf(m.side);
    SweepBalances(buyers, st.books[m.instrumentId].SideList(Opposite(side)), side, LimitOf(m), m.quantity, m.orderId);
    ReportsTally(TradedOn(buyers, Buy), st, m);
    ReportsTally(TradedOn(buyers, Sell), st, m);
  }

  lemma {:induction false} StepBalances(buyers: set<nat>, st: State, m: Msg, now: nat)
    requires StateSides(buyers, st)
    requires m.kind == NEW_ORDER ==> (m.orderId in buyers) == (SideOf(m.side) == Buy)
    ensures var o := Step(st, m, now);
      && StateSides(buyers, o.state)
      && Tally(TradedOn(buyers, Buy), o.reports) == Tally(TradedOn(buyers, Sell), o.reports)
  {
    if m.kind == NEW_ORDER {
      if Accepted(st, m) {
        NewKeepsSides(buyers, st, m, now);
        NewBalances(buyers, st, m);
      } else { assert Step(st, m, now).reports[1..] == []; }
    } else if m.kind == CANCEL || m.kind == MODIFY {
      assert |StepCancel(st, m).reports| > 0 ==> StepCancel(st, m).reports[1..] == [];
    }
  }

  /** In every run the quantity bought equals the quantity sold. */
  lemma {:induction false} RunBalances(buyers: set<nat>, st: State, ms: seq<Stamped>)
    requires StateSides(buyers, st) && RunSides(buyers, ms)
    ensures var o := Run(st, ms);
      && StateSides(buyers, o.state)
      && Tally(TradedOn(buyers, Buy), o.reports) == Tally(TradedOn(buyers, Sell), o.reports)
  {
    if ms != [] {
      var n := |ms| - 1;
      RunBalances(buyers, st, ms[..n]);
      var before := Run(st, ms[..n]);
      StepBalances(buyers, before.state, ms[n].msg, ms[n].now);
      var last := Step(before.state, ms[n].msg, ms[n].now);
      TallyAppend(TradedOn(buyers, Buy), before.reports, last.reports);
      TallyAppend(TradedOn(buyers, Sell), before.reports, last.reports);
    }
  }

  // ---------------------------------------------------------------- counters

  function IsTrade(): Report -> nat {
    (r: Report) => if r.kind == Fill || r.kind == PartialFill then 1 else 0
  }

  function IsReject(): Report -> nat {
    (r: Report) => if r.kind == Reject then 1 else 0
  }

  lemma {:induction false} SweepCounts(taker: nat, trades: seq<Trade>)
    ensures Tally(IsTrade(), SweepReports(taker, trades)) == 2 * |trades|
    ensures Tally(IsReject(), SweepReports(taker, trades)) == 0
  {
    if trades != [] {
      SweepCounts(taker, trades[1..]);
      TradeTally(IsTrade(), taker, trades[0], SweepReports(taker, trades[1..]));
      TradeTally(IsReject(), taker, trades[0], SweepReports(taker, trades[1..]));
    }
  }

  lemma {:induction false} StepCounts(st: State, m: Msg, now: nat)
    ensures var o := Step(st, m, now);
      && 2 * (o.state.fills - st.fills) == Tally(IsTrade(), o.reports)
      && o.state.rejected - st.rejected == Tally(IsReject(), o.reports)
  {
    if m.kind == NEW_ORDER && Accepted(st, m) {
      SweepCounts(m.orderId, SweepOf(st, m).trades);
      ReportsTally(IsTrade(), st, m);
      ReportsTally(IsReject(), st, m);
    } else {
      assert |Step(st, m, now).reports| > 0 ==> Step(st, m, now).reports[1..] == [];
    }
  }

  /** The engine's counters always agree with the reports it sent. */
  lemma {:induction false} RunCounts(st: State, ms: seq<Stamped>)
    ensures var o := Run(st, ms);
      && 2 * (o.state.fills - st.fills) == Tally(IsTrade(), o.reports)
      && o.state.rejected - st.rejected == Tally(IsReject(), o.reports)
  {
    if ms != [] {
      var n := |ms| - 1;
      RunCounts(st, ms[..n]);
      var before := Run(st, ms[..n]);
      StepCounts(before.state, ms[n].msg, ms[n].now);
      var last := Step(before.state, ms[n].msg, ms[n].now);
      TallyAppend(IsTrade(), before.reports, last.reports);
      TallyAppend(IsReject(), before.reports, last.reports);
    }
  }
}
