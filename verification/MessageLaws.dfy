/** What one message does, said from the message's own bytes, the lists before and after it and
    the reports it causes: when an order is refused, what it may trade with and at what price,
    what each report says, where a remainder goes, and what a cancel takes out. */
module MessageLaws {
  import opened Arith
  import opened Types
  import opened Folding
  import opened Reference
  import opened SweepLaws
  import opened RunLaws
  import opened Ledger
  import opened OrderLaws

  // ------------------------------------------------------------------ cancels

  function ListOf(b: Book, side: Side): seq<Resting> {
    match side
    case Buy => b.bids
    case Sell => b.asks
  }

  /** Nothing but the book of `k` and the freelist's length differs. */
  ghost predicate OnlyBookAndFree(st: State, st': State, k: nat) {
    && st'.grids == st.grids && st'.leaked == st.leaked && st'.fills == st.fills && st'.rejected == st.rejected
    && st'.books.Keys == st.books.Keys
    && forall j :: j in st.books && j != k ==> st'.books[j] == st.books[j]
  }

  /** A cancel (kind 1) or modify (kind 2) of an order that rests: exactly that order leaves, all
      others keep their places, one acknowledgement carries what was left of it, its slot is free. */
  lemma {:induction false} CancelTakesOut(st: State, m: Msg, now: nat, side: Side, i: nat)
    requires m.kind == 1 || m.kind == 2
    requires m.instrumentId in st.books && IdsDistinct(st.books[m.instrumentId])
    requires i < |ListOf(st.books[m.instrumentId], side)| && ListOf(st.books[m.instrumentId], side)[i].id == m.orderId
    ensures var o := Step(st, m, now); var s := ListOf(st.books[m.instrumentId], side);
      && OnlyBookAndFree(st, o.state, m.instrumentId) && o.state.free == st.free + 1
      && o.reports == [Report(CancelAck, m.orderId, 0, 0, 0, s[i].qty)]
      && m.instrumentId in o.state.books
      && var b' := o.state.books[m.instrumentId];
         && ListOf(b', side) == s[..i] + s[i + 1..]
         && ListOf(b', Opposite(side)) == ListOf(st.books[m.instrumentId], Opposite(side))
         && (forall j :: 0 <= j < |b'.bids| ==> b'.bids[j].id != m.orderId)
         && (forall j :: 0 <= j < |b'.asks| ==> b'.asks[j].id != m.orderId)
  {
    var b := st.books[m.instrumentId];
    var s := ListOf(b, side);
    assert HasId(s, m.orderId);
    assert Find(s, m.orderId) == i;
    assert side == Sell ==> !HasId(b.bids, m.orderId);
    assert SideOfId(b, m.orderId) == Some(side);
    var t := s[..i] + s[i + 1..];
    forall j | 0 <= j < |t| ensures t[j].id != m.orderId {
      assert t[j] == s[if j < i then j else j + 1];
    }
  }

  ghost predicate RestsIn(st: State, k: nat, id: nat) {
    k in st.books && exists side, i :: 0 <= i < |ListOf(st.books[k], side)| && ListOf(st.books[k], side)[i].id == id
  }

  /** A cancel of anything else changes nothing and says nothing; so does a message of another kind. */
  lemma {:induction false} NothingToCancel(st: State, m: Msg, now: nat)
    requires m.kind != 0
    requires m.kind > 2 || !RestsIn(st, m.instrumentId, m.orderId)
    ensures Step(st, m, now).state == st && Step(st, m, now).reports == []
  {
    if m.kind <= 2 && m.instrumentId in st.books {
      var b := st.books[m.instrumentId];
      forall i | 0 <= i < |b.bids| ensures b.bids[i].id != m.orderId {
        assert ListOf(b, Buy)[i] == b.bids[i];
      }
      forall i | 0 <= i < |b.asks| ensures b.asks[i].id != m.orderId {
        assert ListOf(b, Sell)[i] == b.asks[i];
      }
    }
  }

  // ---------------------------------------------------------------- new orders

  /** The list a new order trades with, and the one it may join: side byte 0 buys. */
  function Against(b: Book, m: Msg): seq<Resting> { if m.side == 0 then b.asks else b.bids }

  function Along(b: Book, m: Msg): seq<Resting> { if m.side == 0 then b.bids else b.asks }

  /** The order may trade at this price: a market order (type 1) at any, a buy at or below its own
      price, a sell at or above it. */
  predicate MayTrade(m: Msg, price: int) {
    m.orderType == 1 || (if m.side == 0 then price <= m.price else price >= m.price)
  }

  function QtyWhere(s: seq<Resting>, counts: int -> bool): nat {
    if s == [] then 0 else (if counts(s[0].price) then s[0].qty else 0) + QtyWhere(s[1..], counts)
  }

  /** Prices the fill-or-kill check counts: for a buy everything up to the limit and always the
      lowest level; for a sell within the grid everything less than a tick below the limit. */
  function Counted(g: Grid, m: Msg): int -> bool {
    (p: int) =>
      if m.side == 0 then p <= m.price || p == g.min
      else m.price <= g.max && p > m.price - g.tick
  }

  /** The conditions under which a new order is refused. */
  predicate Refused(st: State, m: Msg) {
    || m.instrumentId !in st.books
    || m.instrumentId !in st.grids
    || st.free == 0
    || m.orderType > 3
    || (m.orderType == 3
        && QtyWhere(Against(st.books[m.instrumentId], m), Counted(st.grids[m.instrumentId], m)) % 0x1_0000_0000 < m.quantity)
  }

  lemma {:induction false} CountedBound(g: Grid, m: Msg, p: int)
    requires g.WellFormed() && g.IsValidPrice(p)
    ensures Counted(g, m)(p) == Crosses(SideOf(m.side), Some(FokBound(g, SideOf(m.side), m.price)), p)
  {
    if m.side != 0 && g.min < m.price <= g.max {
      RoundDown(g, m.price);
      TickApart(g, p, FokBound(g, Sell, m.price));
    }
  }

  /** Different grid prices are at least a tick apart. */
  lemma {:induction false} TickApart(g: Grid, p: int, q: int)
    requires g.WellFormed() && g.IsValidPrice(p) && g.IsValidPrice(q)
    ensures p < q ==> p <= q - g.tick
  {
    var i, j := (p - g.min) / g.tick, (q - g.min) / g.tick;
    assert p - g.min == i * g.tick && q - g.min == j * g.tick;
    if i < j {
      MulAtLeast(j - i, g.tick);
    } else {
      assert (i - j) * g.tick >= 0;
    }
  }

  lemma {:induction false} CountedQty(g: Grid, m: Msg, s: seq<Resting>, now: nat)
    requires g.WellFormed() && SoundOrders(g, s, now)
    ensures QtyWhere(s, Counted(g, m)) == Crossable(s, SideOf(m.side), Some(FokBound(g, SideOf(m.side), m.price)))
  {
    if s != [] {
      CountedBound(g, m, s[0].price);
      CountedQty(g, m, s[1..], now);
    }
  }

  lemma {:induction false} RefusedIs(st: State, m: Msg, now: nat)
    requires StateOk(st, now)
    ensures Refused(st, m) <==> !Accepted(st, m)
  {
    if m.instrumentId in st.books {
      var g, b := st.grids[m.instrumentId], st.books[m.instrumentId];
      assert BookOk(g, b, now) && g.WellFormed();
      CountedQty(g, m, Against(b, m), now);
    }
  }

  /** A new order is refused exactly under those conditions: one reject with its whole quantity,
      one more in the counter, nothing else touched; otherwise there is no reject at all. */
  lemma {:induction false} RefusedExactly(st: State, m: Msg, now: nat)
    requires StateOk(st, now) && m.kind == 0
    ensures var o := Step(st, m, now);
      && (Refused(st, m) ==>
            o.state == st.(rejected := st.rejected + 1) && o.reports == [Report(Reject, m.orderId, 0, 0, 0, m.quantity)])
      && (!Refused(st, m) ==>
            o.state.rejected == st.rejected && forall i :: 0 <= i < |o.reports| ==> o.reports[i].kind != Reject)
  {
    RefusedIs(st, m, now);
    if !Refused(st, m) {
      AcceptedStep(st, m, now);
      NoReject(m.orderId, SweepOf(st, m).trades);
    }
  }

  lemma {:induction false} NoReject(taker: nat, ts: seq<Trade>)
    ensures forall i :: 0 <= i < |SweepReports(taker, ts)| ==> SweepReports(taker, ts)[i].kind != Reject
  {
    if ts != [] { NoReject(taker, ts[1..]); }
  }

  /** The acknowledgement behind the trades. */
  function TailOf(m: Msg, left: nat): seq<Report> {
    if left > 0 && (m.orderType == 1 || m.orderType == 2) then [Report(CancelAck, m.orderId, 0, 0, 0, left)] else []
  }

  /** The list the order may join, after it. */
  function Joined(g: Grid, own: seq<Resting>, m: Msg, left: nat, now: nat): seq<Resting>
    requires g.tick > 0
  {
    if m.orderType == 0 && left > 0 && g.IsValidPrice(m.price)
    then Insert(SideOf(m.side), own, Residual(m, left, now)) else own
  }

  /** An accepted order's step, part by part. */
  lemma {:induction false} AcceptedStep(st: State, m: Msg, now: nat)
    requires Accepted(st, m) && m.kind == 0
    ensures var o := Step(st, m, now); var w := SweepOf(st, m);
      && o.reports == SweepReports(m.orderId, w.trades) + TailOf(m, w.left)
      && o.state.fills == st.fills + |w.trades| && o.state.rejected == st.rejected && o.state.grids == st.grids
      && o.state.books == st.books[m.instrumentId := BookAfter(st, m, now)]
      && Against(BookAfter(st, m, now), m) == w.rest
      && Along(BookAfter(st, m, now), m) == Joined(st.grids[m.instrumentId], Along(st.books[m.instrumentId], m), m, w.left, now)
      && w == Sweep(Against(st.books[m.instrumentId], m), SideOf(m.side), LimitOf(m), m.quantity)
  {
  }

  // ----------------------------------------------------------- the trades of a sweep

  lemma {:induction false} ReportsLength(taker: nat, ts: seq<Trade>)
    ensures |SweepReports(taker, ts)| == 2 * |ts|
  {
    if ts != [] { ReportsLength(taker, ts[1..]); }
  }

  lemma {:induction false} ReportsAt(taker: nat, ts: seq<Trade>, i: nat)
    requires 2 * i < |SweepReports(taker, ts)|
    ensures |SweepReports(taker, ts)| == 2 * |ts| && i < |ts|
    ensures SweepReports(taker, ts)[2 * i] == TradeReports(taker, ts[i])[0]
    ensures SweepReports(taker, ts)[2 * i + 1] == TradeReports(taker, ts[i])[1]
  {
    ReportsLength(taker, ts);
    if i > 0 {
      ReportsLength(taker, ts[1..]);
      ReportsAt(taker, ts[1..], i - 1);
      assert SweepReports(taker, ts)[2 * i] == SweepReports(taker, ts[1..])[2 * (i - 1)];
      assert SweepReports(taker, ts)[2 * i + 1] == SweepReports(taker, ts[1..])[2 * (i - 1) + 1];
    }
  }

  /** Trade `i` is with the `i`-th order, at its price; only the last may leave it a remainder. */
  lemma {:induction false} TradeIs(s: seq<Resting>, side: Side, limit: Option<int>, q: nat, i: nat)
    requires Positive(s) && i < |Sweep(s, side, limit, q).trades|
    ensures var w := Sweep(s, side, limit, q); var t := w.trades[i];
      && |w.trades| <= |s|
      && t.maker == s[i].id && t.price == s[i].price && Crosses(side, limit, s[i].price)
      && 0 < t.qty <= s[i].qty && t.makerLeft == s[i].qty - t.qty
      && (t.makerLeft > 0 ==> i == |w.trades| - 1)
      && t.takerLeft + t.qty == if i == 0 then q else w.trades[i - 1].takerLeft
  {
    SweepIsGreedy(s, side, limit, q);
    SweepProgress(s, side, limit, q);
    var w := Sweep(s, side, limit, q);
    if i < |s| - |w.rest| {
      assert ConsumedWhole(s, i, q, w.trades[i]);
    }
  }

  /** What `n` greedy trades leave of the list and of the order. */
  ghost predicate EndsOk(s: seq<Resting>, side: Side, limit: Option<int>, q: nat, w: Swept) {
    var n := |w.trades|;
    && n <= |s|
    && w.rest == (if n > 0 && w.trades[n - 1].makerLeft > 0
                  then [s[n - 1].(qty := w.trades[n - 1].makerLeft)] + s[n..] else s[n..])
    && w.left == (if n == 0 then q else w.trades[n - 1].takerLeft)
    && (w.left > 0 ==> w.rest == [] || !Crosses(side, limit, w.rest[0].price))
  }

  lemma {:induction false} GreedyEnds(s: seq<Resting>, side: Side, limit: Option<int>, q: nat, w: Swept, k: nat)
    requires GreedyAt(s, side, limit, q, w, k)
    ensures EndsOk(s, side, limit, q, w)
  {
    if k > 0 {
      assert ConsumedWhole(s, k - 1, q, w.trades[k - 1]);
    } else {
      assert s[..0] == [];
    }
  }

  lemma {:induction false} SweepEnds(s: seq<Resting>, side: Side, limit: Option<int>, q: nat)
    ensures EndsOk(s, side, limit, q, Sweep(s, side, limit, q))
  {
    SweepIsGreedy(s, side, limit, q);
    GreedyEnds(s, side, limit, q, Sweep(s, side, limit, q), |s| - |Sweep(s, side, limit, q).rest|);
  }

  // ----------------------------------------------------------------- the report law

  /** Quantity the first `i` trades executed, read off the reports. */
  function Bought(log: seq<Report>, i: nat): nat
    requires 2 * i <= |log|
  {
    if i == 0 then 0 else Bought(log, i - 1) + log[2 * (i - 1)].quantity
  }

  /** The two reports of a trade with `maker`: both at its price and for the same quantity, each
      naming the other party.  `before` is what the taker still wanted, `kept` what the maker has
      in the book afterwards. */
  predicate PairOk(first: Report, second: Report, maker: Resting, taker: nat, before: int, kept: nat) {
    var q := first.quantity;
    && 0 < q <= before && q + kept == maker.qty
    && first == Report(if kept == 0 then Fill else PartialFill, maker.id, taker, maker.price, q, kept)
    && second == Report(if q == before then Fill else PartialFill, taker, maker.id, maker.price, q, before - q)
  }

  /** `n` trades took `opp` to `opp'`. */
  ghost predicate TradesOk(opp: seq<Resting>, opp': seq<Resting>, m: Msg, log: seq<Report>, n: nat) {
    && n <= |opp| && 2 * n <= |log|
    && (forall i :: 0 <= i < n ==> MayTrade(m, opp[i].price))
    && (forall i :: 0 <= i < n ==> PairAt(opp, opp', m, log, i))
    && Bought(log, n) <= m.quantity
    && (Bought(log, n) < m.quantity ==> opp' == [] || !MayTrade(m, opp'[0].price))
    && opp' == if n > 0 && log[2 * n - 2].leaves > 0 then [opp[n - 1].(qty := log[2 * n - 2].leaves)] + opp[n..] else opp[n..]
  }

  ghost predicate PairAt(opp: seq<Resting>, opp': seq<Resting>, m: Msg, log: seq<Report>, i: nat)
    requires i < |opp| && 2 * i + 1 < |log|
  {
    PairOk(log[2 * i], log[2 * i + 1], opp[i], m.orderId, m.quantity - Bought(log, i), QtyIn(opp', opp[i].id))
  }

  lemma {:induction false} BoughtIs(s: seq<Resting>, side: Side, limit: Option<int>, q: nat, taker: nat, more: seq<Report>, i: nat)
    requires Positive(s) && i <= |Sweep(s, side, limit, q).trades|
    ensures var w := Sweep(s, side, limit, q); var log := SweepReports(taker, w.trades) + more;
      2 * i <= |log| && Bought(log, i) == q - if i == 0 then q else w.trades[i - 1].takerLeft
  {
    var w := Sweep(s, side, limit, q);
    ReportsLength(taker, w.trades);
    if i > 0 {
      BoughtIs(s, side, limit, q, taker, more, i - 1);
      ReportsAt(taker, w.trades, i - 1);
      TradeIs(s, side, limit, q, i - 1);
    }
  }

  /** What the `i`-th order has in a list that starts behind it, or with the rest of it. */
  lemma {:induction false} KeptInTail(s: seq<Resting>, rest: seq<Resting>, n: nat, left: nat, i: nat)
    requires DistinctIds(s) && i < n <= |s|
    requires rest == if left > 0 then [s[n - 1].(qty := left)] + s[n..] else s[n..]
    ensures QtyIn(rest, s[i].id) == if i == n - 1 then left else 0
  {
    var id, tail := s[i].id, s[n..];
    forall x | 0 <= x < |tail| ensures tail[x].id != id {
      assert tail[x] == s[n + x];
    }
    AbsentIn(tail, id);
    if left > 0 {
      InCons(s[n - 1].(qty := left), tail, id);
    }
  }

  /** What the `i`-th order has after the sweep. */
  lemma {:induction false} KeptIs(s: seq<Resting>, side: Side, limit: Option<int>, q: nat, w: Swept, i: nat)
    requires DistinctIds(s) && EndsOk(s, side, limit, q, w) && i < |w.trades|
    requires w.trades[i].makerLeft > 0 ==> i == |w.trades| - 1
    ensures QtyIn(w.rest, s[i].id) == w.trades[i].makerLeft
  {
    KeptInTail(s, w.rest, |w.trades|, w.trades[|w.trades| - 1].makerLeft, i);
  }

  /** The sweep an accepted order performs obeys the report law. */
  lemma {:induction false} SweepObeys(s: seq<Resting>, m: Msg, more: seq<Report>)
    requires Positive(s) && DistinctIds(s)
    ensures var w := Sweep(s, SideOf(m.side), LimitOf(m), m.quantity);
      var log := SweepReports(m.orderId, w.trades) + more;
      TradesOk(s, w.rest, m, log, |w.trades|) && Bought(log, |w.trades|) == m.quantity - w.left
  {
    var side, limit := SideOf(m.side), LimitOf(m);
    var w := Sweep(s, side, limit, m.quantity);
    var n := |w.trades|;
    var log := SweepReports(m.orderId, w.trades) + more;
    SweepEnds(s, side, limit, m.quantity);
    BoughtIs(s, side, limit, m.quantity, m.orderId, more, n);
    AllPairs(s, m, more);
    LastLeavesIs(m, w.trades, more);
    LimitIs(m, w.rest);
    Obeys(s, m, w, log);
  }

  lemma {:induction false} Obeys(s: seq<Resting>, m: Msg, w: Swept, log: seq<Report>)
    requires |w.trades| <= |s| && 2 * |w.trades| <= |log|
    requires forall i :: 0 <= i < |w.trades| ==> MayTrade(m, s[i].price)
    requires forall i :: 0 <= i < |w.trades| ==> PairAt(s, w.rest, m, log, i)
    requires w.left <= m.quantity && Bought(log, |w.trades|) == m.quantity - w.left
    requires w.left > 0 ==> w.rest == [] || !MayTrade(m, w.rest[0].price)
    requires var n := |w.trades|;
      && (n > 0 ==> log[2 * n - 2].leaves == w.trades[n - 1].makerLeft)
      && w.rest == if n > 0 && w.trades[n - 1].makerLeft > 0
                   then [s[n - 1].(qty := w.trades[n - 1].makerLeft)] + s[n..] else s[n..]
    ensures TradesOk(s, w.rest, m, log, |w.trades|)
  {
  }

  lemma {:induction false} AllPairs(s: seq<Resting>, m: Msg, more: seq<Report>)
    requires Positive(s) && DistinctIds(s)
    ensures var w := Sweep(s, SideOf(m.side), LimitOf(m), m.quantity);
      var log := SweepReports(m.orderId, w.trades) + more; var n := |w.trades|;
      && n <= |s| && 2 * n <= |log|
      && (forall i :: 0 <= i < n ==> MayTrade(m, s[i].price))
      && (forall i :: 0 <= i < n ==> PairAt(s, w.rest, m, log, i))
  {
    var w := Sweep(s, SideOf(m.side), LimitOf(m), m.quantity);
    SweepEnds(s, SideOf(m.side), LimitOf(m), m.quantity);
    ReportsLength(m.orderId, w.trades);
    forall i | 0 <= i < |w.trades|
      ensures MayTrade(m, s[i].price) && PairAt(s, w.rest, m, SweepReports(m.orderId, w.trades) + more, i)
    {
      PairIs(s, m, more, i);
    }
  }

  /** The last maker report's leaves. */
  lemma {:induction false} LastLeavesIs(m: Msg, ts: seq<Trade>, more: seq<Report>)
    ensures var log := SweepReports(m.orderId, ts) + more; var n := |ts|;
      2 * n <= |log| && (n > 0 ==> log[2 * n - 2].leaves == ts[n - 1].makerLeft)
  {
    ReportsLength(m.orderId, ts);
    if ts != [] { ReportsAt(m.orderId, ts, |ts| - 1); }
  }

  lemma {:induction false} LimitIs(m: Msg, rest: seq<Resting>)
    ensures rest != [] ==> (MayTrade(m, rest[0].price) <==> Crosses(SideOf(m.side), LimitOf(m), rest[0].price))
  {
  }

  lemma {:induction false} PairIs(s: seq<Resting>, m: Msg, more: seq<Report>, i: nat)
    requires Positive(s) && DistinctIds(s)
    requires i < |s| && i < |Sweep(s, SideOf(m.side), LimitOf(m), m.quantity).trades|
    ensures var w := Sweep(s, SideOf(m.side), LimitOf(m), m.quantity);
      var log := SweepReports(m.orderId, w.trades) + more;
      2 * i + 1 < |log| && MayTrade(m, s[i].price) && PairAt(s, w.rest, m, log, i)
  {
    var side, limit := SideOf(m.side), LimitOf(m);
    var w := Sweep(s, side, limit, m.quantity);
    ReportsLength(m.orderId, w.trades);
    ReportsAt(m.orderId, w.trades, i);
    TradeIs(s, side, limit, m.quantity, i);
    BoughtIs(s, side, limit, m.quantity, m.orderId, more, i);
    SweepEnds(s, side, limit, m.quantity);
    KeptIs(s, side, limit, m.quantity, w, i);
  }

  // -------------------------------------------------------------- the whole message

  /** The reports behind the trades: an acknowledgement of what a market (1) or immediate-or-cancel
      (2) order could not get, and nothing else. */
  predicate TailOk(m: Msg, log: seq<Report>, n: nat)
    requires 2 * n <= |log|
  {
    var left := m.quantity - Bought(log, n);
    log[2 * n..] == if left > 0 && (m.orderType == 1 || m.orderType == 2)
                    then [Report(CancelAck, m.orderId, 0, 0, 0, left)] else []
  }

  /** `at` is where a newcomer with this message's price belongs: behind everything at least as good. */
  predicate JoinsAt(own: seq<Resting>, m: Msg, at: nat) {
    && at <= |own|
    && (forall i :: 0 <= i < at ==> if m.side == 0 then own[i].price >= m.price else own[i].price <= m.price)
    && (forall i :: at <= i < |own| ==> if m.side == 0 then own[i].price < m.price else own[i].price > m.price)
  }

  /** Only a limit order (type 0) with a remainder and a price on the grid joins its side. */
  ghost predicate RestOk(g: Grid, own: seq<Resting>, own': seq<Resting>, m: Msg, left: nat, now: nat)
    requires g.tick > 0
  {
    if m.orderType == 0 && left > 0 && g.min <= m.price <= g.max && (m.price - g.min) % g.tick == 0 then
      exists at: nat :: JoinsAt(own, m, at) && own' == own[..at] + [Resting(m.orderId, m.price, left, now)] + own[at..]
    else own' == own
  }

  /** A new order that is not refused: `o.state.fills - st.fills` trades with the first orders of
      the other side, reported in pairs, then the acknowledgement, then the remainder's place. */
  ghost predicate NewOrderOk(st: State, m: Msg, now: nat, o: Outcome)
    requires m.instrumentId in st.books && m.instrumentId in st.grids && st.grids[m.instrumentId].tick > 0
  {
    && o.state.grids == st.grids && OthersSame(st.books, o.state.books, m.instrumentId)
    && o.state.fills >= st.fills
    && TradedOk(st.grids[m.instrumentId], st.books[m.instrumentId], o.state.books[m.instrumentId], m, now,
                o.reports, o.state.fills - st.fills)
  }

  ghost predicate OthersSame(books: map<nat, Book>, books': map<nat, Book>, k: nat)
    requires k in books
  {
    books'.Keys == books.Keys && books' == books[k := books'[k]]
  }

  // The clauses are named one by one so that the solver unfolds only those a proof asks for.
  datatype Effect = TradesEffect | TailEffect | RestEffect

  ghost predicate EffectOk(c: Effect, g: Grid, b: Book, b': Book, m: Msg, now: nat, log: seq<Report>, n: nat)
    requires g.tick > 0
  {
    match c
    case TradesEffect => TradesOk(Against(b, m), Against(b', m), m, log, n)
    case TailEffect => 2 * n <= |log| && TailOk(m, log, n)
    case RestEffect =>
      && 2 * n <= |log| && Bought(log, n) <= m.quantity
      && RestOk(g, Along(b, m), Along(b', m), m, m.quantity - Bought(log, n), now)
  }

  /** The message's `n` trades, its acknowledgement and its remainder. */
  ghost predicate TradedOk(g: Grid, b: Book, b': Book, m: Msg, now: nat, log: seq<Report>, n: nat)
    requires g.tick > 0
  {
    forall c {:trigger EffectOk(c, g, b, b', m, now, log, n)} :: EffectOk(c, g, b, b', m, now, log, n)
  }

  lemma {:induction false} OpenTrades(g: Grid, b: Book, b': Book, m: Msg, now: nat, log: seq<Report>, n: nat)
    requires g.tick > 0 && TradedOk(g, b, b', m, now, log, n)
    ensures TradesOk(Against(b, m), Against(b', m), m, log, n)
  {
    assert EffectOk(TradesEffect, g, b, b', m, now, log, n);
  }

  lemma {:induction false} OpenTail(g: Grid, b: Book, b': Book, m: Msg, now: nat, log: seq<Report>, n: nat)
    requires g.tick > 0 && TradedOk(g, b, b', m, now, log, n)
    ensures 2 * n <= |log| && TailOk(m, log, n)
  {
    assert EffectOk(TailEffect, g, b, b', m, now, log, n);
  }

  lemma {:induction false} OpenRest(g: Grid, b: Book, b': Book, m: Msg, now: nat, log: seq<Report>, n: nat)
    requires g.tick > 0 && TradedOk(g, b, b', m, now, log, n)
    ensures 2 * n <= |log| && Bought(log, n) <= m.quantity
    ensures RestOk(g, Along(b, m), Along(b', m), m, m.quantity - Bought(log, n), now)
  {
    assert EffectOk(RestEffect, g, b, b', m, now, log, n);
  }

  lemma {:induction false} NewOrderTraded(st: State, m: Msg, now: nat, n: nat)
    requires StateOk(st, now) && StateDistinct(st) && m.kind == 0 && Accepted(st, m) && n == |SweepOf(st, m).trades|
    ensures var k := m.instrumentId;
      TradedOk(st.grids[k], st.books[k], BookAfter(st, m, now), m, now, Step(st, m, now).reports, n)
  {
    var k := m.instrumentId;
    assert BookOk(st.grids[k], st.books[k], now) && IdsDistinct(st.books[k]);
    AcceptedStep(st, m, now);
    BookTraded(st.grids[k], st.books[k], m, now, SweepOf(st, m), BookAfter(st, m, now), Step(st, m, now).reports);
  }

  lemma {:induction false} BookTraded(g: Grid, b: Book, m: Msg, now: nat, w: Swept, b': Book, log: seq<Report>)
    requires g.tick > 0 && BookOk(g, b, now) && IdsDistinct(b)
    requires w == Sweep(Against(b, m), SideOf(m.side), LimitOf(m), m.quantity)
    requires log == SweepReports(m.orderId, w.trades) + TailOf(m, w.left)
    requires Against(b', m) == w.rest && Along(b', m) == Joined(g, Along(b, m), m, w.left, now)
    ensures TradedOk(g, b, b', m, now, log, |w.trades|)
  {
    SweepObeys(Against(b, m), m, TailOf(m, w.left));
    TailObeys(m, w, TailOf(m, w.left));
    RestObeys(g, b, m, w.left, now);
    Traded(g, b, b', m, now, log, |w.trades|, w.left);
  }

  lemma {:induction false} NewOrderObeys(st: State, m: Msg, now: nat)
    requires StateOk(st, now) && StateDistinct(st) && m.kind == 0 && !Refused(st, m)
    ensures m.instrumentId in st.books && m.instrumentId in st.grids && st.grids[m.instrumentId].tick > 0
    ensures NewOrderOk(st, m, now, Step(st, m, now))
  {
    RefusedIs(st, m, now);
    AcceptedStep(st, m, now);
    NewOrderTraded(st, m, now, Step(st, m, now).state.fills - st.fills);
  }

  lemma {:induction false} Traded(g: Grid, b: Book, b': Book, m: Msg, now: nat, log: seq<Report>, n: nat, left: nat)
    requires g.tick > 0 && TradesOk(Against(b, m), Against(b', m), m, log, n) && TailOk(m, log, n)
    requires left == m.quantity - Bought(log, n) && RestOk(g, Along(b, m), Along(b', m), m, left, now)
    ensures TradedOk(g, b, b', m, now, log, n)
  {
  }

  lemma {:induction false} TailObeys(m: Msg, w: Swept, tail: seq<Report>)
    requires tail == TailOf(m, w.left)
    requires var log := SweepReports(m.orderId, w.trades) + tail;
      2 * |w.trades| <= |log| && Bought(log, |w.trades|) == m.quantity - w.left
    ensures TailOk(m, SweepReports(m.orderId, w.trades) + tail, |w.trades|)
  {
    ReportsLength(m.orderId, w.trades);
  }

  /** Where the remainder goes. */
  lemma {:induction false} RestObeys(g: Grid, b: Book, m: Msg, left: nat, now: nat)
    requires g.tick > 0 && BookOk(g, b, now)
    ensures var own := Along(b, m);
      RestOk(g, own, Joined(g, own, m, left, now), m, left, now)
  {
    var own, side := Along(b, m), SideOf(m.side);
    InsertAt(side, own, Residual(m, left, now));
    var p := InsertPos(side, own, m.price);
    forall i | p <= i < |own| ensures Better(side, m.price, own[i].price) {
      assert i > p ==> !Ahead(side, own[i], own[p]);
    }
    assert JoinsAt(own, m, p);
  }

  // -------------------------------------------------------- the law leaves no choice

  /** Every trade but the last takes its maker whole. */
  lemma {:induction false} WholeTrade(opp: seq<Resting>, opp': seq<Resting>, m: Msg, log: seq<Report>, n: nat, i: nat)
    requires DistinctIds(opp) && TradesOk(opp, opp', m, log, n) && i < n
    ensures log[2 * i].quantity + log[2 * i].leaves == opp[i].qty
    ensures i < n - 1 ==> log[2 * i].leaves == 0
    ensures 0 < log[2 * i].quantity <= m.quantity - Bought(log, i)
  {
    assert PairAt(opp, opp', m, log, i);
    KeptInTail(opp, opp', n, log[2 * n - 2].leaves, i);
  }

  lemma {:induction false} BoughtWhole(opp: seq<Resting>, opp': seq<Resting>, m: Msg, log: seq<Report>, n: nat, i: nat)
    requires DistinctIds(opp) && TradesOk(opp, opp', m, log, n) && i <= n && (i == n > 0 ==> log[2 * n - 2].leaves == 0)
    ensures Bought(log, i) == Total(opp[..i])
  {
    if i > 0 {
      BoughtWhole(opp, opp', m, log, n, i - 1);
      WholeTrade(opp, opp', m, log, n, i - 1);
      TotalPrefix(opp, i - 1);
    }
  }

  /** A maker that is left a remainder was the last thing the order needed. */
  lemma {:induction false} PartIsLast(opp: seq<Resting>, opp': seq<Resting>, m: Msg, log: seq<Report>, n: nat)
    requires DistinctIds(opp) && TradesOk(opp, opp', m, log, n) && n > 0 && log[2 * n - 2].leaves > 0
    ensures Bought(log, n) == m.quantity
  {
    assert MayTrade(m, opp[n - 1].price);
  }

  /** Of two outcomes that obey the law, neither stops before the other. */
  lemma {:induction false} NoEarlierStop(
      opp: seq<Resting>, m: Msg, opp1: seq<Resting>, log1: seq<Report>, n1: nat, opp2: seq<Resting>, log2: seq<Report>, n2: nat)
    requires Positive(opp) && DistinctIds(opp)
    requires TradesOk(opp, opp1, m, log1, n1) && TradesOk(opp, opp2, m, log2, n2)
    ensures n1 >= n2
  {
    if n1 < n2 {
      BoughtWhole(opp, opp2, m, log2, n2, n1);
      WholeTrade(opp, opp2, m, log2, n2, n1);
      assert Total(opp[..n1]) < m.quantity && MayTrade(m, opp[n1].price);
      if n1 > 0 && log1[2 * n1 - 2].leaves > 0 {
        PartIsLast(opp, opp1, m, log1, n1);
        BoughtWhole(opp, opp1, m, log1, n1, n1 - 1);
        WholeTrade(opp, opp1, m, log1, n1, n1 - 1);
        TotalPrefix(opp, n1 - 1);
      } else {
        BoughtWhole(opp, opp1, m, log1, n1, n1);
      }
    }
  }

  /** A trade's quantity is the smaller of what the maker has and what the order still wants. */
  lemma {:induction false} QuantityIs(opp: seq<Resting>, opp': seq<Resting>, m: Msg, log: seq<Report>, n: nat, i: nat)
    requires DistinctIds(opp) && TradesOk(opp, opp', m, log, n) && i < n
    ensures Bought(log, i) == Total(opp[..i]) && 0 <= m.quantity - Total(opp[..i])
    ensures log[2 * i].quantity == Min(opp[i].qty, m.quantity - Total(opp[..i]))
  {
    WholeTrade(opp, opp', m, log, n, i);
    BoughtWhole(opp, opp', m, log, n, i);
    if log[2 * i].leaves > 0 {
      PartIsLast(opp, opp', m, log, n);
    }
  }

  lemma {:induction false} SameQuantity(
      opp: seq<Resting>, m: Msg, opp1: seq<Resting>, log1: seq<Report>, opp2: seq<Resting>, log2: seq<Report>, n: nat, i: nat)
    requires DistinctIds(opp) && i < n
    requires TradesOk(opp, opp1, m, log1, n) && TradesOk(opp, opp2, m, log2, n)
    ensures log1[2 * i] == log2[2 * i] && log1[2 * i + 1] == log2[2 * i + 1]
  {
    QuantityIs(opp, opp1, m, log1, n, i);
    QuantityIs(opp, opp2, m, log2, n, i);
    assert PairAt(opp, opp1, m, log1, i) && PairAt(opp, opp2, m, log2, i);
  }

  ghost predicate SamePairAt(a: seq<Report>, b: seq<Report>, i: nat) {
    2 * i + 1 < |a| && 2 * i + 1 < |b| && a[2 * i] == b[2 * i] && a[2 * i + 1] == b[2 * i + 1]
  }

  lemma {:induction false} SamePairs(a: seq<Report>, b: seq<Report>, n: nat)
    requires 2 * n <= |a| && 2 * n <= |b|
    requires forall i :: 0 <= i < n ==> SamePairAt(a, b, i)
    ensures a[..2 * n] == b[..2 * n] && Bought(a, n) == Bought(b, n)
  {
    if n > 0 {
      SamePairs(a, b, n - 1);
      assert SamePairAt(a, b, n - 1);
      assert a[..2 * n] == a[..2 * (n - 1)] + [a[2 * (n - 1)], a[2 * (n - 1) + 1]];
      assert b[..2 * n] == b[..2 * (n - 1)] + [b[2 * (n - 1)], b[2 * (n - 1) + 1]];
    }
  }

  lemma {:induction false} SameTrades(
      opp: seq<Resting>, m: Msg, opp1: seq<Resting>, log1: seq<Report>, n1: nat, opp2: seq<Resting>, log2: seq<Report>, n2: nat)
    requires Positive(opp) && DistinctIds(opp)
    requires TradesOk(opp, opp1, m, log1, n1) && TradesOk(opp, opp2, m, log2, n2)
    ensures n1 == n2 && opp1 == opp2 && log1[..2 * n1] == log2[..2 * n2] && Bought(log1, n1) == Bought(log2, n2)
  {
    NoEarlierStop(opp, m, opp1, log1, n1, opp2, log2, n2);
    NoEarlierStop(opp, m, opp2, log2, n2, opp1, log1, n1);
    SameLogs(opp, m, opp1, log1, opp2, log2, n1);
  }

  lemma {:induction false} SameLogs(
      opp: seq<Resting>, m: Msg, opp1: seq<Resting>, log1: seq<Report>, opp2: seq<Resting>, log2: seq<Report>, n: nat)
    requires DistinctIds(opp) && TradesOk(opp, opp1, m, log1, n) && TradesOk(opp, opp2, m, log2, n)
    ensures opp1 == opp2 && log1[..2 * n] == log2[..2 * n] && Bought(log1, n) == Bought(log2, n)
  {
    forall i | 0 <= i < n ensures SamePairAt(log1, log2, i) {
      SameQuantity(opp, m, opp1, log1, opp2, log2, n, i);
    }
    SamePairs(log1, log2, n);
    assert n > 0 ==> SamePairAt(log1, log2, n - 1);
  }

  lemma {:induction false} SameRest(
      g: Grid, own: seq<Resting>, a: seq<Resting>, b: seq<Resting>, m: Msg, left: nat, left': nat, now: nat)
    requires g.tick > 0 && RestOk(g, own, a, m, left, now) && RestOk(g, own, b, m, left', now) && left == left'
    ensures a == b
  {
    if m.orderType == 0 && left > 0 && g.IsValidPrice(m.price) {
      var x: nat :| JoinsAt(own, m, x) && a == own[..x] + [Resting(m.orderId, m.price, left, now)] + own[x..];
      var y: nat :| JoinsAt(own, m, y) && b == own[..y] + [Resting(m.orderId, m.price, left, now)] + own[y..];
      OnePlace(own, m, x, y);
    }
  }

  lemma {:induction false} OnePlace(own: seq<Resting>, m: Msg, x: nat, y: nat)
    requires JoinsAt(own, m, x) && JoinsAt(own, m, y)
    ensures x == y
  {
    var p := if x < |own| then own[x].price else 0;
    var q := if y < |own| then own[y].price else 0;
  }

  /** Whatever obeys the law is what the engine does: same reports, same books, same fill count. */
  lemma {:induction false} NewOrderDetermined(st: State, m: Msg, now: nat, o: Outcome)
    requires StateOk(st, now) && StateDistinct(st) && m.kind == 0 && !Refused(st, m)
    requires m.instrumentId in st.books && m.instrumentId in st.grids && st.grids[m.instrumentId].tick > 0
    requires NewOrderOk(st, m, now, o)
    ensures var e := Step(st, m, now);
      o.reports == e.reports && o.state.books == e.state.books && o.state.fills == e.state.fills
  {
    var k := m.instrumentId;
    var g, b := st.grids[k], st.books[k];
    assert BookOk(g, b, now) && IdsDistinct(b);
    NewOrderObeys(st, m, now);
    SameOutcome(st, m, now, o, Step(st, m, now));
  }

  lemma {:induction false} SameOutcome(st: State, m: Msg, now: nat, o: Outcome, e: Outcome)
    requires m.instrumentId in st.books && m.instrumentId in st.grids && st.grids[m.instrumentId].tick > 0
    requires Positive(Against(st.books[m.instrumentId], m)) && DistinctIds(Against(st.books[m.instrumentId], m))
    requires NewOrderOk(st, m, now, o) && NewOrderOk(st, m, now, e)
    ensures o.reports == e.reports && o.state.books == e.state.books && o.state.fills == e.state.fills
  {
    var k := m.instrumentId;
    var b, bo, be := st.books[k], o.state.books[k], e.state.books[k];
    SameBook(st.grids[k], b, m, now, bo, o.reports, o.state.fills - st.fills, be, e.reports, e.state.fills - st.fills);
  }

  lemma {:induction false} SameBook(
      g: Grid, b: Book, m: Msg, now: nat, b1: Book, log1: seq<Report>, n1: nat, b2: Book, log2: seq<Report>, n2: nat)
    requires g.tick > 0 && Positive(Against(b, m)) && DistinctIds(Against(b, m))
    requires TradedOk(g, b, b1, m, now, log1, n1) && TradedOk(g, b, b2, m, now, log2, n2)
    ensures n1 == n2 && b1 == b2 && log1 == log2
  {
    SameLists(g, b, m, now, b1, log1, n1, b2, log2, n2);
    SameLog(g, b, m, now, b1, log1, n1, b2, log2, n2);
    OpenRest(g, b, b1, m, now, log1, n1);
    OpenRest(g, b, b2, m, now, log2, n2);
    SameRest(g, Along(b, m), Along(b1, m), Along(b2, m), m, m.quantity - Bought(log1, n1), m.quantity - Bought(log2, n2), now);
  }

  lemma {:induction false} SameLists(
      g: Grid, b: Book, m: Msg, now: nat, b1: Book, log1: seq<Report>, n1: nat, b2: Book, log2: seq<Report>, n2: nat)
    requires g.tick > 0 && Positive(Against(b, m)) && DistinctIds(Against(b, m))
    requires TradedOk(g, b, b1, m, now, log1, n1) && TradedOk(g, b, b2, m, now, log2, n2)
    ensures n1 == n2 && Against(b1, m) == Against(b2, m) && 2 * n1 <= |log1| && 2 * n2 <= |log2|
    ensures log1[..2 * n1] == log2[..2 * n2] && Bought(log1, n1) == Bought(log2, n2)
  {
    OpenTrades(g, b, b1, m, now, log1, n1);
    OpenTrades(g, b, b2, m, now, log2, n2);
    SameTrades(Against(b, m), m, Against(b1, m), log1, n1, Against(b2, m), log2, n2);
  }

  lemma {:induction false} SameLog(
      g: Grid, b: Book, m: Msg, now: nat, b1: Book, log1: seq<Report>, n1: nat, b2: Book, log2: seq<Report>, n2: nat)
    requires g.tick > 0 && TradedOk(g, b, b1, m, now, log1, n1) && TradedOk(g, b, b2, m, now, log2, n2)
    requires n1 == n2 && 2 * n1 <= |log1| && 2 * n2 <= |log2|
    requires log1[..2 * n1] == log2[..2 * n2] && Bought(log1, n1) == Bought(log2, n2)
    ensures log1 == log2
  {
    OpenTail(g, b, b1, m, now, log1, n1);
    OpenTail(g, b, b2, m, now, log2, n2);
    SameTail(m, log1, log2, n1);
  }

  lemma {:induction false} SameTail(m: Msg, a: seq<Report>, b: seq<Report>, n: nat)
    requires 2 * n <= |a| && 2 * n <= |b| && a[..2 * n] == b[..2 * n] && Bought(a, n) == Bought(b, n)
    requires TailOk(m, a, n) && TailOk(m, b, n)
    ensures a == b
  {
    assert a == a[..2 * n] + a[2 * n..] && b == b[..2 * n] + b[2 * n..];
  }
}
