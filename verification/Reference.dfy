/** The reference engine: what the matching engine is for, said without slots,
    links, levels, cursors or aggregates.  A book is two lists of resting orders,
    best price first and, at one price, earliest first. */
module Reference {
  import opened Types
  import opened Folding

  datatype Resting = Resting(id: nat, price: int, qty: nat, time: nat)

  datatype Book = Book(bids: seq<Resting>, asks: seq<Resting>) {
    function SideList(side: Side): seq<Resting> {
      if side == Buy then bids else asks
    }

    function WithSide(side: Side, s: seq<Resting>): Book {
      if side == Buy then Book(s, asks) else Book(bids, s)
    }
  }

  /** `free` counts pool slots on the freelist; `leaked` counts slots that are neither
      free nor resting any more. */
  datatype State = State(
    grids: map<nat, Grid>, books: map<nat, Book>,
    free: nat, leaked: nat, fills: nat, rejected: nat)

  type Outcome = Ran<State, Report>

  // ---------------------------------------------------------------- priority

  /** On `side`, price `p` is strictly better (matched sooner) than `q`. */
  predicate Better(side: Side, p: int, q: int) {
    if side == Buy then p > q else p < q
  }

  /** `a` has priority over `b`: a better price, or the same price and an earlier arrival. */
  predicate Ahead(side: Side, a: Resting, b: Resting) {
    Better(side, a.price, b.price) || (a.price == b.price && a.time < b.time)
  }

  ghost predicate Prioritised(side: Side, s: seq<Resting>) {
    forall i, j :: 0 <= i < j < |s| ==> !Ahead(side, s[j], s[i])
  }

  /** An aggressor on `side` with this limit may trade at `price`; `None` is a market order. */
  predicate Crosses(side: Side, limit: Option<int>, price: int) {
    limit.None? || (if side == Buy then price <= limit.value else price >= limit.value)
  }

  // ------------------------------------------------------------------- sweep

  /** One trade: who rested, at what price, how much, and what each party has left. */
  datatype Trade = Trade(maker: nat, price: int, qty: nat, makerLeft: nat, takerLeft: nat)

  datatype Swept = Swept(trades: seq<Trade>, rest: seq<Resting>, left: nat)

  function Sweep(s: seq<Resting>, side: Side, limit: Option<int>, qty: nat): (w: Swept)
    ensures |w.rest| <= |s|
    decreases |s|
  {
    if qty == 0 || s == [] || !Crosses(side, limit, s[0].price) then
      Swept([], s, qty)
    else if s[0].qty <= qty then
      var w := Sweep(s[1..], side, limit, qty - s[0].qty);
      Swept([Trade(s[0].id, s[0].price, s[0].qty, 0, qty - s[0].qty)] + w.trades, w.rest, w.left)
    else
      Swept([Trade(s[0].id, s[0].price, qty, s[0].qty - qty, 0)],
            [s[0].(qty := s[0].qty - qty)] + s[1..], 0)
  }

  /** Each trade is reported twice, resting party first. */
  function TradeReports(taker: nat, t: Trade): seq<Report> {
    [Report(if t.makerLeft == 0 then Fill else PartialFill, t.maker, taker, t.price, t.qty, t.makerLeft),
     Report(if t.takerLeft == 0 then Fill else PartialFill, taker, t.maker, t.price, t.qty, t.takerLeft)]
  }

  function SweepReports(taker: nat, trades: seq<Trade>): seq<Report> {
    if trades == [] then []
    else TradeReports(taker, trades[0]) + SweepReports(taker, trades[1..])
  }

  // ------------------------------------------------------------- list edits

  /** Insert behind every order whose price is at least as good. */
  function Insert(side: Side, s: seq<Resting>, o: Resting): seq<Resting> {
    if s == [] then [o]
    else if Better(side, o.price, s[0].price) then [o] + s
    else [s[0]] + Insert(side, s[1..], o)
  }

  predicate HasId(s: seq<Resting>, id: nat) {
    exists i :: 0 <= i < |s| && s[i].id == id
  }

  function Find(s: seq<Resting>, id: nat): (i: nat)
    requires HasId(s, id)
    ensures i < |s| && s[i].id == id
    ensures forall j :: 0 <= j < i ==> s[j].id != id
  {
    if s[0].id == id then 0 else
      assert HasId(s[1..], id) by {
        var k :| 0 <= k < |s| && s[k].id == id;
        assert s[1..][k - 1].id == id;
      }
      1 + Find(s[1..], id)
  }

  function Delete<T>(s: seq<T>, i: nat): seq<T>
    requires i < |s|
  {
    s[..i] + s[i + 1..]
  }

  // -------------------------------------------------------------- quantities

  /** Total quantity an aggressor with this limit could take from `s`. */
  function Crossable(s: seq<Resting>, side: Side, limit: Option<int>): nat {
    if s == [] then 0
    else (if Crosses(side, limit, s[0].price) then s[0].qty else 0) + Crossable(s[1..], side, limit)
  }

  /** Total quantity resting in `s` at exactly `price`. */
  function LevelQty(s: seq<Resting>, price: int): nat {
    if s == [] then 0
    else (if s[0].price == price then s[0].qty else 0) + LevelQty(s[1..], price)
  }

  /** The price bound the fill-or-kill feasibility check really uses.  A buy limit
      below the grid is treated as the lowest price; a sell limit between two grid
      prices is rounded down. */
  function FokBound(g: Grid, side: Side, limit: int): int
    requires g.tick > 0
  {
    if side == Buy then
      if limit < g.min then g.min else limit
    else
      if limit <= g.min || limit > g.max then limit
      else g.min + ((limit - g.min) / g.tick) * g.tick
  }

  /** The check sums 32-bit words with wrap-around. */
  function FokAvailable(g: Grid, b: Book, side: Side, limit: int): nat
    requires g.tick > 0
  {
    Crossable(b.SideList(Opposite(side)), side, Some(FokBound(g, side, limit))) % TWO_32
  }

  // -------------------------------------------------------------------- step

  predicate Known(st: State, instrument: nat) {
    instrument in st.books && instrument in st.grids && st.grids[instrument].tick > 0
  }

  predicate Accepted(st: State, m: Msg) {
    && Known(st, m.instrumentId)
    && st.free > 0
    && m.orderType <= FOK
    && (m.orderType == FOK ==>
          m.quantity <= FokAvailable(st.grids[m.instrumentId], st.books[m.instrumentId], SideOf(m.side), m.price))
  }

  function LimitOf(m: Msg): Option<int> {
    if m.orderType == MARKET then None else Some(m.price)
  }

  /** The sweep an accepted new order performs. */
  function SweepOf(st: State, m: Msg): Swept
    requires Known(st, m.instrumentId)
  {
    var side := SideOf(m.side);
    Sweep(st.books[m.instrumentId].SideList(Opposite(side)), side, LimitOf(m), m.quantity)
  }

  function Residual(m: Msg, left: nat, now: nat): Resting {
    Resting(m.orderId, m.price, left, now)
  }

  /** The message leaves an unfilled limit order that has a level to rest at. */
  predicate Rests(st: State, m: Msg)
    requires Known(st, m.instrumentId)
  {
    m.orderType == LIMIT && SweepOf(st, m).left > 0 && st.grids[m.instrumentId].IsValidPrice(m.price)
  }

  /** The message leaves an unfilled limit order whose price has no level: the order is
      not queued, its slot is not released and nothing is reported. */
  predicate Leaks(st: State, m: Msg)
    requires Known(st, m.instrumentId)
  {
    m.orderType == LIMIT && SweepOf(st, m).left > 0 && !st.grids[m.instrumentId].IsValidPrice(m.price)
  }

  function BookAfter(st: State, m: Msg, now: nat): Book
    requires Known(st, m.instrumentId)
  {
    var side := SideOf(m.side);
    var w := SweepOf(st, m);
    var swept := st.books[m.instrumentId].WithSide(Opposite(side), w.rest);
    if Rests(st, m) then
      swept.WithSide(side, Insert(side, swept.SideList(side), Residual(m, w.left, now)))
    else swept
  }

  function ReportsAfter(st: State, m: Msg): seq<Report>
    requires Known(st, m.instrumentId)
  {
    var w := SweepOf(st, m);
    SweepReports(m.orderId, w.trades)
    + if w.left > 0 && (m.orderType == MARKET || m.orderType == IOC)
      then [CancelReport(m.orderId, w.left)] else []
  }

  /** Makers that left the book, i.e. slots handed back during the sweep. */
  function MakersGone(st: State, m: Msg): nat
    requires Known(st, m.instrumentId)
  {
    |st.books[m.instrumentId].SideList(Opposite(SideOf(m.side)))| - |SweepOf(st, m).rest|
  }

  function StepNew(st: State, m: Msg, now: nat): Outcome {
    if !Accepted(st, m) then
      Outcome(st.(rejected := st.rejected + 1), [RejectReport(m.orderId, m.quantity)])
    else
      var kept := if Rests(st, m) || Leaks(st, m) then 1 else 0;
      Outcome(
        st.(books := st.books[m.instrumentId := BookAfter(st, m, now)],
            free := st.free + MakersGone(st, m) - kept,
            leaked := st.leaked + (if Leaks(st, m) then 1 else 0),
            fills := st.fills + |SweepOf(st, m).trades|),
        ReportsAfter(st, m))
  }

  function SideOfId(b: Book, id: nat): Option<Side> {
    if HasId(b.bids, id) then Some(Buy)
    else if HasId(b.asks, id) then Some(Sell)
    else None
  }

  function StepCancel(st: State, m: Msg): Outcome {
    if m.instrumentId !in st.books then Outcome(st, []) else
    var b := st.books[m.instrumentId];
    match SideOfId(b, m.orderId)
    case None => Outcome(st, [])
    case Some(side) =>
      var s := b.SideList(side);
      var i := Find(s, m.orderId);
      Outcome(st.(books := st.books[m.instrumentId := b.WithSide(side, Delete(s, i))], free := st.free + 1),
              [CancelReport(m.orderId, s[i].qty)])
  }

  function Step(st: State, m: Msg, now: nat): Outcome {
    if m.kind == NEW_ORDER then StepNew(st, m, now)
    else if m.kind == CANCEL || m.kind == MODIFY then StepCancel(st, m)
    else Outcome(st, [])
  }

  /** Registering an instrument adds an empty book. */
  function WithInstrument(st: State, id: nat, g: Grid): State {
    st.(grids := st.grids[id := g], books := st.books[id := Book([], [])])
  }

  // --------------------------------------------------------------------- run

  /** A message with the clock reading taken when it is dispatched. */
  datatype Stamped = Stamped(msg: Msg, now: nat)

  function Dispatch(st: State, m: Stamped): Outcome {
    Step(st, m.msg, m.now)
  }

  function Run(st: State, ms: seq<Stamped>): Outcome {
    Fold(Dispatch, st, ms)
  }

  /** What the engine demands of a limit order that is about to rest: an id not already
      resting in the book, and a level sum that fits in 32 bits. */
  predicate Admissible(st: State, m: Msg) {
    m.kind == NEW_ORDER && Accepted(st, m) && Rests(st, m) ==>
      var side := SideOf(m.side);
      var w := SweepOf(st, m);
      && !HasId(w.rest, m.orderId)
      && !HasId(st.books[m.instrumentId].SideList(side), m.orderId)
      && LevelQty(st.books[m.instrumentId].SideList(side), m.price) + w.left < TWO_32
  }

  ghost predicate AdmissibleRun(st: State, ms: seq<Stamped>) {
    forall i :: 0 <= i < |ms| ==> Admissible(Run(st, ms[..i]).state, ms[i].msg)
  }
}
