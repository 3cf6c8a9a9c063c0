/** The leaves a client reads off its latest trade report are what still rests, in every run. */
module Leaves {
  import opened Types
  import opened Folding
  import opened Reference
  import opened SweepLaws
  import opened RunLaws
  import opened Ledger

  /** The leaves of the last trade report about `id`, if there is one. */
  function LastLeaves(log: seq<Report>, id: nat): Option<nat> {
    if log == [] then None
    else
      var r := log[|log| - 1];
      if r.orderId == id && (r.kind == Fill || r.kind == PartialFill) then Some(r.leaves)
      else LastLeaves(log[..|log| - 1], id)
  }

  lemma {:induction false} LastLeavesAppend(a: seq<Report>, b: seq<Report>, id: nat)
    ensures LastLeaves(a + b, id) == if LastLeaves(b, id).Some? then LastLeaves(b, id) else LastLeaves(a, id)
    decreases |b|
  {
    if b == [] {
      assert a + b == a;
    } else {
      LastLeavesAppend(a, b[..|b| - 1], id);
      assert (a + b)[..|a + b| - 1] == a + b[..|b| - 1];
    }
  }

  /** What the log shows of an order that wanted `original` and now has `qty` resting. */
  ghost predicate Shows(log: seq<Report>, id: nat, original: nat, qty: nat) {
    match LastLeaves(log, id)
    case None => qty == original
    case Some(v) => qty == v
  }

  // ------------------------------------------------------------------ one sweep

  lemma {:induction false} TradeLeaves(taker: nat, t: Trade, id: nat)
    ensures LastLeaves(TradeReports(taker, t), id)
         == if id == taker then Some(t.takerLeft) else if id == t.maker then Some(t.makerLeft) else None
  {
    var rs := TradeReports(taker, t);
    assert rs[..1] == [rs[0]] && [rs[0]][..0] == [];
    assert LastLeaves([rs[0]], id) == if t.maker == id then Some(t.makerLeft) else None;
  }

  /** A maker that still rests after the sweep shows what it has. */
  lemma {:induction false} MakerShows(s: seq<Resting>, side: Side, limit: Option<int>, q: nat, taker: nat, id: nat)
    requires taker != id && CountIn(s, id) <= 1
    ensures var w := Sweep(s, side, limit, q); var last := LastLeaves(SweepReports(taker, w.trades), id);
      && CountIn(w.rest, id) <= CountIn(s, id)
      && (last.None? ==> QtyIn(w.rest, id) == QtyIn(s, id) && CountIn(w.rest, id) == CountIn(s, id))
      && (last.Some? ==> CountIn(s, id) == 1 && QtyIn(w.rest, id) == last.value)
    decreases |s|
  {
    if q > 0 && s != [] && Crosses(side, limit, s[0].price) {
      var t := FirstTrade(s[0], q);
      TradeLeaves(taker, t, id);
      SweepReportsIs(s, side, limit, q, taker);
      SweepRestIs(s, side, limit, q);
      AbsentIn(s[1..], id);
      assert CountIn(s, id) == (if s[0].id == id then 1 else 0) + CountIn(s[1..], id);
      assert QtyIn(s, id) == (if s[0].id == id then s[0].qty else 0) + QtyIn(s[1..], id);
      if s[0].qty <= q {
        var w' := Sweep(s[1..], side, limit, q - s[0].qty);
        MakerShows(s[1..], side, limit, q - s[0].qty, taker, id);
        LastLeavesAppend(TradeReports(taker, t), SweepReports(taker, w'.trades), id);
        AbsentIn(w'.rest, id);
      } else {
        InCons(s[0].(qty := s[0].qty - q), s[1..], id);
        assert TradeReports(taker, t) + [] == TradeReports(taker, t);
      }
    }
  }

  /** The reports of a sweep that trades: the first trade's, then the rest. */
  lemma {:induction false} SweepReportsIs(s: seq<Resting>, side: Side, limit: Option<int>, q: nat, taker: nat)
    requires q > 0 && s != [] && Crosses(side, limit, s[0].price)
    ensures SweepReports(taker, Sweep(s, side, limit, q).trades)
         == TradeReports(taker, FirstTrade(s[0], q))
            + if s[0].qty <= q then SweepReports(taker, Sweep(s[1..], side, limit, q - s[0].qty).trades) else []
  {
    var trades := Sweep(s, side, limit, q).trades;
    assert trades[0] == FirstTrade(s[0], q);
    if s[0].qty <= q {
      assert trades[1..] == Sweep(s[1..], side, limit, q - s[0].qty).trades;
    } else {
      assert trades[1..] == [];
    }
  }

  /** The taker's last report shows what the sweep left of it. */
  lemma {:induction false} TakerShows(s: seq<Resting>, side: Side, limit: Option<int>, q: nat, taker: nat)
    ensures var w := Sweep(s, side, limit, q); Shows(SweepReports(taker, w.trades), taker, q, w.left)
    decreases |s|
  {
    if q > 0 && s != [] && Crosses(side, limit, s[0].price) {
      var t := FirstTrade(s[0], q);
      TradeLeaves(taker, t, taker);
      SweepReportsIs(s, side, limit, q, taker);
      if s[0].qty <= q {
        TakerShows(s[1..], side, limit, q - s[0].qty, taker);
        LastLeavesAppend(TradeReports(taker, t), SweepReports(taker, Sweep(s[1..], side, limit, q - s[0].qty).trades), taker);
      } else {
        assert TradeReports(taker, t) + [] == TradeReports(taker, t);
      }
    }
  }

  // ---------------------------------------------------------------- one message

  /** The acknowledgement behind the trades is no trade report. */
  lemma {:induction false} ReportsShow(st: State, m: Msg, id: nat)
    requires Known(st, m.instrumentId)
    ensures LastLeaves(ReportsAfter(st, m), id) == LastLeaves(SweepReports(m.orderId, SweepOf(st, m).trades), id)
  {
    var base := SweepReports(m.orderId, SweepOf(st, m).trades);
    var tail := ReportsAfter(st, m)[|base|..];
    assert ReportsAfter(st, m) == base + tail;
    assert tail != [] ==> tail[..0] == [];
    LastLeavesAppend(base, tail, id);
  }

  lemma {:induction false} BothSides(b: Book, side: Side, id: nat)
    ensures BookQty(id)(b) == QtyIn(b.SideList(side), id) + QtyIn(b.SideList(Opposite(side)), id)
    ensures BookCount(id)(b) == CountIn(b.SideList(side), id) + CountIn(b.SideList(Opposite(side)), id)
  {
  }

  /** Somebody else's order on its own side leaves `id` alone there; the other side is swept. */
  lemma {:induction false} OwnSideKept(st: State, m: Msg, now: nat, id: nat)
    requires Accepted(st, m) && m.orderId != id
    ensures var b, b', side := st.books[m.instrumentId], BookAfter(st, m, now), SideOf(m.side);
      && b'.SideList(Opposite(side)) == SweepOf(st, m).rest
      && QtyIn(b'.SideList(side), id) == QtyIn(b.SideList(side), id)
      && CountIn(b'.SideList(side), id) == CountIn(b.SideList(side), id)
  {
    var b, side, w := st.books[m.instrumentId], SideOf(m.side), SweepOf(st, m);
    if Reference.Rests(st, m) {
      InInsert(side, b.SideList(side), Residual(m, w.left, now), id);
    }
  }

  /** What one book has of `id` after a message that does not create it. */
  lemma {:induction false} BookShows(st: State, m: Msg, now: nat, id: nat)
    requires Accepted(st, m) && m.orderId != id && BookCount(id)(st.books[m.instrumentId]) <= 1
    ensures var b, b' := st.books[m.instrumentId], BookAfter(st, m, now); var last := LastLeaves(ReportsAfter(st, m), id);
      && BookCount(id)(b') <= BookCount(id)(b)
      && (last.None? ==> BookQty(id)(b') == BookQty(id)(b))
      && (last.Some? ==> BookCount(id)(b) == 1 && BookQty(id)(b') == last.value)
  {
    var b, side := st.books[m.instrumentId], SideOf(m.side);
    BothSides(b, side, id);
    BothSides(BookAfter(st, m, now), side, id);
    OwnSideKept(st, m, now, id);
    MakerShows(b.SideList(Opposite(side)), side, LimitOf(m), m.quantity, m.orderId, id);
    ReportsShow(st, m, id);
    AbsentIn(b.SideList(side), id);
  }

  /** What the whole state has of `id`, given what one book had and has. */
  lemma {:induction false} OneBookMoves(books: map<nat, Book>, k: nat, b': Book, id: nat)
    requires k in books && Over(BookCount(id), books) <= 1
    ensures Over(BookCount(id), books[k := b']) == Over(BookCount(id), books) - BookCount(id)(books[k]) + BookCount(id)(b')
    ensures Over(BookQty(id), books[k := b']) == Over(BookQty(id), books) - BookQty(id)(books[k]) + BookQty(id)(b')
    ensures BookCount(id)(books[k]) <= Over(BookCount(id), books)
    ensures BookCount(id)(books[k]) == 1 ==> Over(BookQty(id), books) == BookQty(id)(books[k])
  {
    OverUpdate(BookCount(id), books, k, b');
    OverUpdate(BookQty(id), books, k, b');
    OverPick(BookCount(id), books, k);
    OverPick(BookQty(id), books, k);
    if BookCount(id)(books[k]) == 1 {
      QtyNeedsCount(id, books - {k});
    }
  }

  ghost predicate Kept(st: State, st': State, reports: seq<Report>, id: nat) {
    var last := LastLeaves(reports, id);
    && RestingCount(st', id) <= RestingCount(st, id)
    && (RestingCount(st', id) == 1 && last.None? ==> RestingQty(st', id) == RestingQty(st, id))
    && (last.Some? ==> RestingCount(st, id) == 1 && RestingQty(st', id) == last.value)
  }

  lemma {:induction false} CancelKeeps(st: State, m: Msg, id: nat)
    requires RestingCount(st, id) <= 1
    ensures Kept(st, StepCancel(st, m).state, StepCancel(st, m).reports, id)
  {
    if m.instrumentId in st.books {
      var b := st.books[m.instrumentId];
      match SideOfId(b, m.orderId)
      case None =>
      case Some(side) =>
        var s := b.SideList(side);
        var i := Find(s, m.orderId);
        var b' := b.WithSide(side, Delete(s, i));
        InDelete(s, i, id);
        OneBookMoves(st.books, m.instrumentId, b', id);
        var r := StepCancel(st, m).reports;
        assert r == [CancelReport(m.orderId, s[i].qty)] && r[..0] == [];
    }
  }

  /** A message that does not create `id` leaves it what its last report says, or what it had. */
  lemma {:induction false} StepShows(st: State, m: Msg, now: nat, id: nat)
    requires !Creates(m, id) && RestingCount(st, id) <= 1
    ensures var o := Step(st, m, now); Kept(st, o.state, o.reports, id)
  {
    if m.kind == NEW_ORDER {
      if Accepted(st, m) {
        OneBookMoves(st.books, m.instrumentId, BookAfter(st, m, now), id);
        BookShows(st, m, now, id);
      } else {
        var r := [RejectReport(m.orderId, m.quantity)];
        assert r[..0] == [];
      }
    } else if m.kind == CANCEL || m.kind == MODIFY {
      CancelKeeps(st, m, id);
    }
  }

  /** The creating message: what rests of the order is what its own last report says. */
  lemma {:induction false} CreationShows(st: State, m: Msg, now: nat)
    requires m.kind == NEW_ORDER && RestingCount(st, m.orderId) == 0
    ensures var o := Step(st, m, now);
      && RestingCount(o.state, m.orderId) <= 1
      && (RestingCount(o.state, m.orderId) == 1 ==> Shows(o.reports, m.orderId, m.quantity, RestingQty(o.state, m.orderId)))
  {
    var id := m.orderId;
    if Accepted(st, m) {
      var b, side, w := st.books[m.instrumentId], SideOf(m.side), SweepOf(st, m);
      OneBookMoves(st.books, m.instrumentId, BookAfter(st, m, now), id);
      QtyNeedsCount(id, st.books);
      AbsentIn(b.bids, id);
      AbsentIn(b.asks, id);
      TakerShows(b.SideList(Opposite(side)), side, LimitOf(m), m.quantity, id);
      SweepKeepsAbsent(b.SideList(Opposite(side)), side, LimitOf(m), m.quantity, id);
      ReportsShow(st, m, id);
      if Reference.Rests(st, m) {
        InInsert(side, b.SideList(side), Residual(m, w.left, now), id);
      }
    }
  }

  lemma {:induction false} SweepKeepsAbsent(s: seq<Resting>, side: Side, limit: Option<int>, q: nat, id: nat)
    requires CountIn(s, id) == 0
    ensures CountIn(Sweep(s, side, limit, q).rest, id) == 0 && QtyIn(Sweep(s, side, limit, q).rest, id) == 0
    decreases |s|
  {
    AbsentIn(s, id);
    if q > 0 && s != [] && Crosses(side, limit, s[0].price) {
      SweepRestIs(s, side, limit, q);
      if s[0].qty <= q {
        SweepKeepsAbsent(s[1..], side, limit, q - s[0].qty, id);
      } else {
        InCons(s[0].(qty := s[0].qty - q), s[1..], id);
        AbsentIn(s[1..], id);
      }
    }
  }

  // ------------------------------------------------------------------ every run

  ghost predicate NoneCreates(ms: seq<Stamped>, id: nat) {
    forall i :: 0 <= i < |ms| ==> !Creates(ms[i].msg, id)
  }

  /** Before it is created an order is in no book and in no trade report. */
  lemma {:induction false} RunSilent(st: State, ms: seq<Stamped>, id: nat)
    requires NoneCreates(ms, id) && RestingCount(st, id) == 0
    ensures var o := Run(st, ms); RestingCount(o.state, id) == 0 && LastLeaves(o.reports, id) == None
  {
    if ms != [] {
      var n := |ms| - 1;
      var before := Run(st, ms[..n]);
      RunSilent(st, ms[..n], id);
      StepShows(before.state, ms[n].msg, ms[n].now, id);
      LastLeavesAppend(before.reports, Step(before.state, ms[n].msg, ms[n].now).reports, id);
    }
  }

  lemma {:induction false} RunShows(st: State, ms: seq<Stamped>, id: nat, log: seq<Report>, original: nat)
    requires NoneCreates(ms, id) && RestingCount(st, id) <= 1
    requires RestingCount(st, id) == 1 ==> Shows(log, id, original, RestingQty(st, id))
    ensures var o := Run(st, ms);
      && RestingCount(o.state, id) <= 1
      && (RestingCount(o.state, id) == 1 ==> Shows(log + o.reports, id, original, RestingQty(o.state, id)))
  {
    if ms == [] {
      assert log + [] == log;
    } else {
      var n := |ms| - 1;
      var before := Run(st, ms[..n]);
      var last := Step(before.state, ms[n].msg, ms[n].now);
      RunShows(st, ms[..n], id, log, original);
      StepShows(before.state, ms[n].msg, ms[n].now, id);
      LastLeavesAppend(log + before.reports, last.reports, id);
      AppendTwice(log, before.reports, last.reports);
    }
  }

  /** In every run in which an id is created once: while the order rests, the leaves of its latest
      trade report are its resting quantity, and without such a report it rests with all it wanted. */
  lemma {:induction false} LeavesAreCurrent(st: State, ms: seq<Stamped>, j: nat, id: nat)
    requires j < |ms| && Creates(ms[j].msg, id)
    requires forall i :: 0 <= i < |ms| && i != j ==> !Creates(ms[i].msg, id)
    requires RestingCount(st, id) == 0
    ensures var o := Run(st, ms);
      && RestingCount(o.state, id) <= 1
      && (RestingCount(o.state, id) == 1 ==>
            match LastLeaves(o.reports, id)
            case None => RestingQty(o.state, id) == ms[j].msg.quantity
            case Some(leaves) => RestingQty(o.state, id) == leaves)
  {
    var before := Run(st, ms[..j]);
    var mid := Step(before.state, ms[j].msg, ms[j].now);
    RunSilent(st, ms[..j], id);
    CreationShows(before.state, ms[j].msg, ms[j].now);
    LastLeavesAppend(before.reports, mid.reports, id);
    RunShows(mid.state, ms[j + 1..], id, before.reports + mid.reports, ms[j].msg.quantity);
    RunAround(st, ms, j);
  }
}
