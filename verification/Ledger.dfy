/** Conservation of quantity over whole runs: what every order was executed for,
    what it was closed for, and what of it still rests. */
module Ledger {
  import opened Types
  import opened Folding
  import opened Reference
  import opened SweepLaws
  import opened RunLaws

  // ----------------------------------------------------------------- tallies

  function Tally(w: Report -> nat, log: seq<Report>): nat {
    if log == [] then 0 else w(log[0]) + Tally(w, log[1..])
  }

  lemma {:induction false} TallyAppend(w: Report -> nat, a: seq<Report>, b: seq<Report>)
    ensures Tally(w, a + b) == Tally(w, a) + Tally(w, b)
  {
    if a == [] {
      assert a + b == b;
    } else {
      TallyAppend(w, a[1..], b);
      assert (a + b)[1..] == a[1..] + b;
    }
  }

  /** Quantity the log says order `id` traded. */
  function Executed(log: seq<Report>, id: nat): nat {
    Tally((r: Report) => if r.orderId == id then r.quantity else 0, log)
  }

  /** Quantity of order `id` that a cancel acknowledgement or a reject gave back. */
  function Closed(log: seq<Report>, id: nat): nat {
    Tally((r: Report) => if r.orderId == id && (r.kind == CancelAck || r.kind == Reject) then r.leaves else 0, log)
  }

  /** Both of the above in one weight. */
  function Settles(id: nat): Report -> nat {
    (r: Report) =>
      if r.orderId != id then 0
      else r.quantity + if r.kind == CancelAck || r.kind == Reject then r.leaves else 0
  }

  /** Reports that end the life of order `id`. */
  function Ends(id: nat): Report -> nat {
    (r: Report) => if r.orderId == id && r.kind != PartialFill then 1 else 0
  }

  lemma {:induction false} SettlesSplits(log: seq<Report>, id: nat)
    ensures Tally(Settles(id), log) == Executed(log, id) + Closed(log, id)
  {
    if log != [] { SettlesSplits(log[1..], id); }
  }

  // ------------------------------------------------------- resting quantities

  function QtyIn(s: seq<Resting>, id: nat): nat {
    if s == [] then 0 else (if s[0].id == id then s[0].qty else 0) + QtyIn(s[1..], id)
  }

  function CountIn(s: seq<Resting>, id: nat): nat {
    if s == [] then 0 else (if s[0].id == id then 1 else 0) + CountIn(s[1..], id)
  }

  function BookQty(id: nat): Book -> nat {
    (b: Book) => QtyIn(b.bids, id) + QtyIn(b.asks, id)
  }

  function BookCount(id: nat): Book -> nat {
    (b: Book) => CountIn(b.bids, id) + CountIn(b.asks, id)
  }

  ghost function RestingQty(st: State, id: nat): nat { Over(BookQty(id), st.books) }

  ghost function RestingCount(st: State, id: nat): nat { Over(BookCount(id), st.books) }

  lemma {:induction false} InConcat(a: seq<Resting>, b: seq<Resting>, id: nat)
    ensures QtyIn(a + b, id) == QtyIn(a, id) + QtyIn(b, id)
    ensures CountIn(a + b, id) == CountIn(a, id) + CountIn(b, id)
  {
    if a == [] {
      assert a + b == b;
    } else {
      InConcat(a[1..], b, id);
      assert (a + b)[1..] == a[1..] + b;
    }
  }

  lemma {:induction false} InDelete(s: seq<Resting>, i: nat, id: nat)
    requires i < |s|
    ensures QtyIn(s, id) == QtyIn(Delete(s, i), id) + (if s[i].id == id then s[i].qty else 0)
    ensures CountIn(s, id) == CountIn(Delete(s, i), id) + (if s[i].id == id then 1 else 0)
  {
    InConcat(s[..i], s[i + 1..], id);
    InConcat(s[..i], s[i..], id);
    assert s == s[..i] + s[i..];
    assert s[i..][1..] == s[i + 1..];
  }

  lemma {:induction false} InInsert(side: Side, s: seq<Resting>, o: Resting, id: nat)
    ensures QtyIn(Insert(side, s, o), id) == QtyIn(s, id) + (if o.id == id then o.qty else 0)
    ensures CountIn(Insert(side, s, o), id) == CountIn(s, id) + (if o.id == id then 1 else 0)
  {
    if s != [] && !Better(side, o.price, s[0].price) {
      InInsert(side, s[1..], o, id);
    }
  }

  lemma {:induction false} AbsentIn(s: seq<Resting>, id: nat)
    ensures CountIn(s, id) == 0 ==> QtyIn(s, id) == 0
    ensures CountIn(s, id) == 0 <==> !HasId(s, id)
  {
    if s != [] {
      AbsentIn(s[1..], id);
      if HasId(s, id) {
        var i :| 0 <= i < |s| && s[i].id == id;
        if i > 0 { assert s[1..][i - 1].id == id; }
      }
      if HasId(s[1..], id) {
        var i :| 0 <= i < |s[1..]| && s[1..][i].id == id;
        assert s[i + 1].id == id;
      }
    }
  }

  // ------------------------------------------------------------ one sweep

  lemma {:induction false} TradeTally(w: Report -> nat, taker: nat, t: Trade, more: seq<Report>)
    ensures Tally(w, TradeReports(taker, t) + more)
         == w(TradeReports(taker, t)[0]) + w(TradeReports(taker, t)[1]) + Tally(w, more)
  {
    var rs := TradeReports(taker, t) + more;
    assert rs[1..][1..] == more;
  }

  /** The first trade of a sweep that trades at all. */
  function FirstTrade(o: Resting, q: nat): Trade {
    if o.qty <= q then Trade(o.id, o.price, o.qty, 0, q - o.qty) else Trade(o.id, o.price, q, o.qty - q, 0)
  }

  /** Weighing a sweep's reports: the first trade, then the sweep of the tail. */
  lemma {:induction false} SweepTally(
      f: Report -> nat, s: seq<Resting>, side: Side, limit: Option<int>, q: nat, taker: nat)
    requires q > 0 && s != [] && Crosses(side, limit, s[0].price)
    ensures var first := TradeReports(taker, FirstTrade(s[0], q));
      Tally(f, SweepReports(taker, Sweep(s, side, limit, q).trades))
      == f(first[0]) + f(first[1])
         + if s[0].qty <= q then Tally(f, SweepReports(taker, Sweep(s[1..], side, limit, q - s[0].qty).trades)) else 0
  {
    var trades := Sweep(s, side, limit, q).trades;
    TradeTally(f, taker, trades[0], SweepReports(taker, trades[1..]));
    if s[0].qty <= q {
      assert trades[1..] == Sweep(s[1..], side, limit, q - s[0].qty).trades;
    } else {
      assert trades[1..] == [];
    }
  }

  /** What the first trade settles and ends for a maker. */
  lemma {:induction false} MakerWeights(o: Resting, q: nat, taker: nat, id: nat)
    requires taker != id
    ensures var first := TradeReports(taker, FirstTrade(o, q));
      && Settles(id)(first[0]) + Settles(id)(first[1]) == (if o.id == id then Min(o.qty, q) else 0)
      && Ends(id)(first[0]) + Ends(id)(first[1]) == (if o.id == id && o.qty <= q then 1 else 0)
  {
  }

  /** What a sweep's reports settle and end for a maker: the first trade, then the rest. */
  lemma {:induction false} MakerTally(s: seq<Resting>, side: Side, limit: Option<int>, q: nat, taker: nat, id: nat)
    requires taker != id && q > 0 && s != [] && Crosses(side, limit, s[0].price)
    ensures var log := SweepReports(taker, Sweep(s, side, limit, q).trades);
      var more := if s[0].qty <= q then SweepReports(taker, Sweep(s[1..], side, limit, q - s[0].qty).trades) else [];
      && Tally(Settles(id), log) == (if s[0].id == id then Min(s[0].qty, q) else 0) + Tally(Settles(id), more)
      && Tally(Ends(id), log) == (if s[0].id == id && s[0].qty <= q then 1 else 0) + Tally(Ends(id), more)
  {
    SweepTally(Settles(id), s, side, limit, q, taker);
    SweepTally(Ends(id), s, side, limit, q, taker);
    MakerWeights(s[0], q, taker, id);
  }

  /** What a sweep that trades leaves in the list. */
  lemma {:induction false} SweepRestIs(s: seq<Resting>, side: Side, limit: Option<int>, q: nat)
    requires q > 0 && s != [] && Crosses(side, limit, s[0].price)
    ensures Sweep(s, side, limit, q).rest
         == if s[0].qty <= q then Sweep(s[1..], side, limit, q - s[0].qty).rest else [s[0].(qty := s[0].qty - q)] + s[1..]
  {
  }

  lemma {:induction false} InCons(o: Resting, s: seq<Resting>, id: nat)
    ensures QtyIn([o] + s, id) == (if o.id == id then o.qty else 0) + QtyIn(s, id)
    ensures CountIn([o] + s, id) == (if o.id == id then 1 else 0) + CountIn(s, id)
  {
    assert ([o] + s)[1..] == s;
  }

  lemma {:induction false} MakerQuantity(
      s: seq<Resting>, side: Side, limit: Option<int>, q: nat, taker: nat, id: nat)
    requires taker != id
    ensures QtyIn(s, id) == QtyIn(Sweep(s, side, limit, q).rest, id)
                           + Tally(Settles(id), SweepReports(taker, Sweep(s, side, limit, q).trades))
    decreases |s|
  {
    if q > 0 && s != [] && Crosses(side, limit, s[0].price) {
      MakerTally(s, side, limit, q, taker, id);
      SweepRestIs(s, side, limit, q);
      if s[0].qty <= q {
        MakerQuantity(s[1..], side, limit, q - s[0].qty, taker, id);
      } else {
        InCons(s[0].(qty := s[0].qty - q), s[1..], id);
      }
    }
  }

  lemma {:induction false} MakerCount(
      s: seq<Resting>, side: Side, limit: Option<int>, q: nat, taker: nat, id: nat)
    requires taker != id
    ensures CountIn(s, id) == CountIn(Sweep(s, side, limit, q).rest, id)
                           + Tally(Ends(id), SweepReports(taker, Sweep(s, side, limit, q).trades))
    decreases |s|
  {
    if q > 0 && s != [] && Crosses(side, limit, s[0].price) {
      MakerTally(s, side, limit, q, taker, id);
      SweepRestIs(s, side, limit, q);
      if s[0].qty <= q {
        MakerCount(s[1..], side, limit, q - s[0].qty, taker, id);
      } else {
        InCons(s[0].(qty := s[0].qty - q), s[1..], id);
      }
    }
  }

  /** What the reports of a sweep settle for a resting order is what leaves the list. */
  lemma {:induction false} MakerLedger(
      s: seq<Resting>, side: Side, limit: Option<int>, q: nat, taker: nat, id: nat)
    requires taker != id
    ensures var w := Sweep(s, side, limit, q); var log := SweepReports(taker, w.trades);
      && QtyIn(s, id) == QtyIn(w.rest, id) + Tally(Settles(id), log)
      && CountIn(s, id) == CountIn(w.rest, id) + Tally(Ends(id), log)
  {
    MakerQuantity(s, side, limit, q, taker, id);
    MakerCount(s, side, limit, q, taker, id);
  }

  /** The taker's reports settle exactly what it executed; it has a terminal report
      exactly when nothing is left of it. */
  lemma {:induction false} TakerLedger(s: seq<Resting>, side: Side, limit: Option<int>, q: nat, taker: nat)
    requires Positive(s)
    requires !HasId(s, taker)
    ensures var w := Sweep(s, side, limit, q); var log := SweepReports(taker, w.trades);
      && q == w.left + Tally(Settles(taker), log)
      && Tally(Ends(taker), log) == (if q > 0 && w.left == 0 then 1 else 0)
      && !HasId(w.rest, taker)
    decreases |s|
  {
    if q > 0 && s != [] && Crosses(side, limit, s[0].price) {
      assert s[0].id != taker;
      SweepTally(Settles(taker), s, side, limit, q, taker);
      SweepTally(Ends(taker), s, side, limit, q, taker);
      if s[0].qty <= q {
        TakerLedger(s[1..], side, limit, q - s[0].qty, taker);
      }
    }
  }

  // --------------------------------------------------------------- one step

  /** Quantity that disappears without any report: an unfilled limit order with no level
      to rest at, or a fill-or-kill that passed its check but could not be filled. */
  function Lost(st: State, m: Msg): nat {
    if m.kind == NEW_ORDER && Accepted(st, m) && (Leaks(st, m) || m.orderType == FOK)
    then SweepOf(st, m).left else 0
  }

  /** The reports of an accepted order, weighed: its trades, then the acknowledgement
      that closes a market or immediate-or-cancel residual. */
  lemma {:induction false} ReportsTally(w: Report -> nat, st: State, m: Msg)
    requires Known(st, m.instrumentId)
    ensures var v := SweepOf(st, m);
      Tally(w, ReportsAfter(st, m)) == Tally(w, SweepReports(m.orderId, v.trades))
        + if v.left > 0 && (m.orderType == MARKET || m.orderType == IOC) then w(CancelReport(m.orderId, v.left)) else 0
  {
    var log := SweepReports(m.orderId, SweepOf(st, m).trades);
    var end := ReportsAfter(st, m)[|log|..];
    assert ReportsAfter(st, m) == log + end;
    TallyAppend(w, log, end);
    assert |end| > 0 ==> end[1..] == [];
  }

  predicate Creates(m: Msg, id: nat) {
    m.kind == NEW_ORDER && m.orderId == id
  }

  lemma {:induction false} BookLedger(st: State, m: Msg, now: nat, id: nat)
    requires Known(st, m.instrumentId) && Accepted(st, m)
    requires m.orderId != id
    ensures var b, b' := st.books[m.instrumentId], BookAfter(st, m, now);
      && BookQty(id)(b) == BookQty(id)(b') + Tally(Settles(id), ReportsAfter(st, m))
      && BookCount(id)(b) == BookCount(id)(b') + Tally(Ends(id), ReportsAfter(st, m))
  {
    var b := st.books[m.instrumentId];
    var side := SideOf(m.side);
    var w := SweepOf(st, m);
    MakerLedger(b.SideList(Opposite(side)), side, LimitOf(m), m.quantity, m.orderId, id);
    ReportsTally(Settles(id), st, m);
    ReportsTally(Ends(id), st, m);
    if Rests(st, m) {
      InInsert(side, b.SideList(side), Residual(m, w.left, now), id);
    }
  }

  lemma {:induction false} OwnLedger(st: State, m: Msg, now: nat)
    requires Accepted(st, m)
    requires Positive(st.books[m.instrumentId].bids) && Positive(st.books[m.instrumentId].asks)
    requires BookCount(m.orderId)(st.books[m.instrumentId]) == 0
    ensures var b' := BookAfter(st, m, now); var lost := if Leaks(st, m) || m.orderType == FOK then SweepOf(st, m).left else 0;
      && m.quantity == BookQty(m.orderId)(b') + Tally(Settles(m.orderId), ReportsAfter(st, m)) + lost
      && BookCount(m.orderId)(b') + Tally(Ends(m.orderId), ReportsAfter(st, m))
         == (if m.quantity > 0 && lost == 0 then 1 else 0)
  {
    var id := m.orderId;
    var b := st.books[m.instrumentId];
    var side := SideOf(m.side);
    var opp := b.SideList(Opposite(side));
    var w := SweepOf(st, m);
    AbsentIn(b.bids, id);
    AbsentIn(b.asks, id);
    TakerLedger(opp, side, LimitOf(m), m.quantity, id);
    AbsentIn(w.rest, id);
    ReportsTally(Settles(id), st, m);
    ReportsTally(Ends(id), st, m);
    if Rests(st, m) {
      InInsert(side, b.SideList(side), Residual(m, w.left, now), id);
    }
  }

  lemma {:induction false} CancelLedger(st: State, m: Msg, id: nat)
    ensures var o := StepCancel(st, m);
      && RestingQty(st, id) == RestingQty(o.state, id) + Tally(Settles(id), o.reports)
      && RestingCount(st, id) == RestingCount(o.state, id) + Tally(Ends(id), o.reports)
  {
    if m.instrumentId in st.books {
      var b := st.books[m.instrumentId];
      match SideOfId(b, m.orderId)
      case None =>
      case Some(side) =>
        var s := b.SideList(side);
        var i := Find(s, m.orderId);
        var b' := b.WithSide(side, Delete(s, i));
        InDelete(s, i, id);
        OverUpdate(BookQty(id), st.books, m.instrumentId, b');
        OverUpdate(BookCount(id), st.books, m.instrumentId, b');
    }
  }

  /** A message that does not create `id` moves quantity of `id` only between the book
      and the reports. */
  lemma {:induction false} StepLedger(st: State, m: Msg, now: nat, id: nat)
    requires !Creates(m, id)
    ensures var o := Step(st, m, now);
      && RestingQty(st, id) == RestingQty(o.state, id) + Tally(Settles(id), o.reports)
      && RestingCount(st, id) == RestingCount(o.state, id) + Tally(Ends(id), o.reports)
  {
    if m.kind == NEW_ORDER {
      if Accepted(st, m) {
        BookLedger(st, m, now, id);
        OverUpdate(BookQty(id), st.books, m.instrumentId, BookAfter(st, m, now));
        OverUpdate(BookCount(id), st.books, m.instrumentId, BookAfter(st, m, now));
      }
    } else if m.kind == CANCEL || m.kind == MODIFY {
      CancelLedger(st, m, id);
    }
  }

  lemma {:induction false} OverZero(id: nat, books: map<nat, Book>, k: nat)
    requires k in books && Over(BookCount(id), books) == 0
    ensures BookCount(id)(books[k]) == 0
  {
    OverPick(BookCount(id), books, k);
  }

  lemma {:induction false} QtyNeedsCount(id: nat, books: map<nat, Book>)
    requires Over(BookCount(id), books) == 0
    ensures Over(BookQty(id), books) == 0
    decreases |books|
  {
    if books != map[] {
      var k :| k in books;
      OverPick(BookCount(id), books, k);
      OverPick(BookQty(id), books, k);
      AbsentIn(books[k].bids, id);
      AbsentIn(books[k].asks, id);
      QtyNeedsCount(id, books - {k});
    }
  }

  /** The creating message splits its quantity between reports, book and loss. */
  lemma {:induction false} CreationLedger(st: State, m: Msg, now: nat)
    requires m.kind == NEW_ORDER
    requires StateOk(st, now)
    requires RestingCount(st, m.orderId) == 0
    ensures var o := Step(st, m, now); var id := m.orderId;
      && m.quantity == RestingQty(o.state, id) + Tally(Settles(id), o.reports) + Lost(st, m)
      && (m.quantity > 0 ==>
            RestingCount(o.state, id) + Tally(Ends(id), o.reports) == if Lost(st, m) == 0 then 1 else 0)
  {
    var id := m.orderId;
    QtyNeedsCount(id, st.books);
    if Accepted(st, m) {
      var k := m.instrumentId;
      OverZero(id, st.books, k);
      assert BookOk(st.grids[k], st.books[k], now);
      AbsentIn(st.books[k].bids, id);
      AbsentIn(st.books[k].asks, id);
      OwnLedger(st, m, now);
      OverUpdate(BookQty(id), st.books, k, BookAfter(st, m, now));
      OverUpdate(BookCount(id), st.books, k, BookAfter(st, m, now));
    } else {
      var log := Step(st, m, now).reports;
      assert log[1..] == [];
    }
  }

  // --------------------------------------------------------------- every run

  /** Nothing in the run creates `id`. */
  ghost predicate NeverCreates(ms: seq<Stamped>, id: nat) {
    forall i :: 0 <= i < |ms| ==> !Creates(ms[i].msg, id)
  }

  lemma {:induction false} RunLedger(st: State, ms: seq<Stamped>, id: nat)
    requires NeverCreates(ms, id)
    ensures var o := Run(st, ms);
      && RestingQty(st, id) == RestingQty(o.state, id) + Tally(Settles(id), o.reports)
      && RestingCount(st, id) == RestingCount(o.state, id) + Tally(Ends(id), o.reports)
  {
    if ms != [] {
      var n := |ms| - 1;
      RunLedger(st, ms[..n], id);
      var before := Run(st, ms[..n]);
      StepLedger(before.state, ms[n].msg, ms[n].now, id);
      var last := Step(before.state, ms[n].msg, ms[n].now);
      TallyAppend(Settles(id), before.reports, last.reports);
      TallyAppend(Ends(id), before.reports, last.reports);
    }
  }

  /** The quantity ledger.  Take any run in which message `j`, and no other, creates order
      `id`, starting where `id` does not rest.  At the end its original quantity is what the
      reports say it executed, plus what was given back by a cancel or reject, plus what still
      rests, plus what was lost; and it rests or has exactly one terminal report, but not both,
      exactly when nothing was lost. */
  lemma {:induction false} QuantityLedger(st: State, start: nat, ms: seq<Stamped>, j: nat, id: nat)
    requires StateOk(st, start) && Monotone(start, ms)
    requires j < |ms| && Creates(ms[j].msg, id)
    requires forall i :: 0 <= i < |ms| && i != j ==> !Creates(ms[i].msg, id)
    requires RestingCount(st, id) == 0
    ensures var o := Run(st, ms); var m := ms[j].msg; var lost := Lost(Run(st, ms[..j]).state, m);
      && m.quantity == Executed(o.reports, id) + Closed(o.reports, id) + RestingQty(o.state, id) + lost
      && (m.quantity > 0 ==>
            (RestingCount(o.state, id) + Tally(Ends(id), o.reports) == 1 <==> lost == 0)
            && RestingCount(o.state, id) + Tally(Ends(id), o.reports) <= 1)
  {
    var before := Run(st, ms[..j]);
    RunLedger(st, ms[..j], id);
    QtyNeedsCount(id, st.books);
    MonotonePrefix(start, ms, j);
    RunKeepsOk(st, start, ms[..j]);
    LaterIsOk(before.state, ClockAfter(start, ms[..j]), ms[j].now);
    CreationLedger(before.state, ms[j].msg, ms[j].now);
    var mid := Step(before.state, ms[j].msg, ms[j].now);
    var tail := Run(mid.state, ms[j + 1..]);
    RunLedger(mid.state, ms[j + 1..], id);
    RunAround(st, ms, j);
    TallyThree(Settles(id), before.reports, mid.reports, tail.reports);
    TallyThree(Ends(id), before.reports, mid.reports, tail.reports);
    SettlesSplits(Run(st, ms).reports, id);
  }

  lemma {:induction false} RunAround(st: State, ms: seq<Stamped>, j: nat)
    requires j < |ms|
    ensures var before := Run(st, ms[..j]);
            var mid := Step(before.state, ms[j].msg, ms[j].now);
            var tail := Run(mid.state, ms[j + 1..]);
      Run(st, ms) == Outcome(tail.state, before.reports + mid.reports + tail.reports)
  {
    FoldAround(Dispatch, st, ms, j);
  }

  lemma {:induction false} TallyThree(w: Report -> nat, a: seq<Report>, b: seq<Report>, c: seq<Report>)
    ensures Tally(w, a + b + c) == Tally(w, a) + Tally(w, b) + Tally(w, c)
  {
    TallyAppend(w, a + b, c);
    TallyAppend(w, a, b);
  }
}
