/** The matching engine: one pool, one book per instrument, an append-only log of reports. */
module MatchingEngines {
  import opened Types
  import opened Folding
  import opened Reference
  import opened PriceLevels
  import opened OrderPools
  import opened Ticks
  import opened Halves
  import opened Books
  import opened OrderBooks
  import opened Ownership
  import opened SweepSteps
  import opened Settlement
  import RunLaws
  import opened Runs
  import opened SlotLaws
  import opened Health
  import EngineLaws

  class MatchingEngine {
    const pool: OrderPool
    var books: map<nat, OrderBook>
    var log: seq<Report>
    var ordersProcessed: nat
    var fillsExecuted: nat
    var ordersRejected: nat
    ghost var leaked: set<int>
    ghost var vals: map<nat, BookVal>
    ghost var model: State
    /** The latest clock reading; the clock never runs backwards. */
    ghost var clock: nat

    ghost function Now(book: OrderBook): Snap
      reads pool, pool.storage, book
    {
      Snap(pool.storage[..], pool.free, book.Val())
    }

    /** No instruments, no orders, every slot free. */
    constructor (capacity: nat)
      requires capacity >= 1
      ensures Valid() && fresh(pool) && fresh(pool.storage)
      ensures pool.storage.Length == capacity && books == map[] && log == [] && ordersProcessed == 0
      ensures model == State(map[], map[], capacity, 0, 0, 0) && clock == 0
    {
      pool := new OrderPool(capacity);
      books, vals, log, leaked := map[], map[], [], {};
      ordersProcessed, fillsExecuted, ordersRejected := 0, 0, 0;
      model, clock := State(map[], map[], capacity, 0, 0, 0), 0;
      new;
      EmptyEngine(pool.storage[..], pool.free, map[], 0, 0);
      assert model == EmptyState(map[], capacity, 0, 0);
      EmptyIsHealthy(model, 0, capacity);
    }

    // --------------------------------------------------------------- the sweep

    /** Take the traded quantity off the aggressor. */
    method Debit(a: int, rest: int) returns (fill: U32)
      requires 0 <= a < pool.storage.Length && 0 <= rest < pool.storage.Length
      modifies pool.storage
      ensures fill == Min(old(pool.storage[rest]).quantity, old(pool.storage[a]).quantity)
      ensures pool.storage[..] == Debited(old(pool.storage[..]), a, fill)
    {
      fill := Min(pool.storage[rest].quantity, pool.storage[a].quantity);
      pool.storage[a] := pool.storage[a].(quantity := pool.storage[a].quantity - fill);
    }

    /** Debit the aggressor and fill the front order; the slot is not yet released. */
    method TradeWith(a: int, book: OrderBook, opp: Side, rest: int) returns (done: bool, fill: U32)
      requires pool.Valid() && Now(book).Ok(a) && IsFront(Now(book), opp, rest)
      requires pool.storage[a].quantity > 0 && pool.storage[rest].quantity > 0
      modifies pool.storage, book
      ensures fill == Min(old(pool.storage[rest]).quantity, old(pool.storage[a]).quantity)
      ensures done <==> old(pool.storage[rest]).quantity <= old(pool.storage[a]).quantity
      ensures pool.storage[a] == old(pool.storage[a]).(quantity := old(pool.storage[a]).quantity - fill)
      ensures pool.storage[rest].orderId == old(pool.storage[rest]).orderId
      ensures pool.storage[rest].quantity == old(pool.storage[rest]).quantity - fill
      ensures IsFreelist(pool.storage[..], pool.free)
      ensures done ==> rest !in pool.free && OneTrade(old(Now(book)),
        Snap(pool.storage[..][rest := pool.storage[rest].(next := First(pool.free), prev := NIL)],
             [rest] + pool.free, book.Val()), a, opp)
      ensures !done ==> OneTrade(old(Now(book)), Now(book), a, opp)
    {
      ghost var sn := Now(book);
      ghost var mem1 := Debited(sn.mem, a, Min(sn.mem[rest].quantity, sn.mem[a].quantity));
      DebitAggressor(sn, a, opp, rest, mem1);
      fill := Debit(a, rest);
      done := book.FillRestingOrder(pool.storage, rest, fill);
      TradeDone(sn, a, opp, rest, mem1, book.Val(), pool.storage[..], done);
    }

    /** Report a trade to the resting party, then to the aggressor. */
    method PostTrade(done: bool, maker: nat, taker: nat, price: int, fill: U32, makerLeft: U32, takerLeft: U32)
      requires done <==> makerLeft == 0
      modifies this`log
      ensures log == old(log) + TradeReports(taker, Trade(maker, price, fill, makerLeft, takerLeft))
    {
      log := log + [Report(if done then Fill else PartialFill, maker, taker, price, fill, makerLeft)];
      log := log + [Report(if takerLeft == 0 then Fill else PartialFill, taker, maker, price, fill, takerLeft)];
    }

    /** One iteration: the aggressor trades with the head of the best opposite level. */
    method SweepOnce(a: int, book: OrderBook, opp: Side, rest: int)
      requires pool.Valid() && Now(book).Ok(a) && IsFront(Now(book), opp, rest)
      requires pool.storage[a].quantity > 0 && pool.storage[rest].quantity > 0
      modifies this`log, this`fillsExecuted, pool, pool.storage, book
      ensures pool.Valid()
      ensures OneTrade(old(Now(book)), Now(book), a, opp)
      ensures log == old(log) + TradeReports(old(pool.storage[a]).orderId,
                TradeAt(old(Now(book)).List(opp), old(pool.storage[a]).quantity))
      ensures fillsExecuted == old(fillsExecuted) + 1
    {
      TradeIs(Now(book), a, opp, rest);
      var price := pool.storage[rest].price;
      var done, fill := TradeWith(a, book, opp, rest);
      ghost var mem2 := pool.storage[..];
      ghost var free := pool.free;
      fillsExecuted := fillsExecuted + 1;
      var r, g := pool.storage[rest], pool.storage[a];
      PostTrade(done, r.orderId, g.orderId, price, fill, r.quantity, g.quantity);
      if done {
        pool.Release(rest);
        assert Now(book) == Snap(mem2[rest := mem2[rest].(next := First(free), prev := NIL)], [rest] + free, book.Val());
      }
    }

    /** One turn of the loop, given how far the sweep has come. */
    method SweepTurn(a: int, book: OrderBook, side: Side, limit: Option<int>, ghost sn0: Snap, ghost done: seq<Trade>)
        returns (more: bool, ghost t: Trade)
      requires pool.Valid() && Progress(sn0, Now(book), a, side, limit, done)
      requires 0 <= a < |sn0.mem| && a < pool.storage.Length && pool.storage[a].quantity > 0
      modifies this`log, this`fillsExecuted, pool, pool.storage, book
      ensures pool.Valid()
      ensures more ==>
        && Progress(sn0, Now(book), a, side, limit, done + [t])
        && pool.storage[a].quantity < old(pool.storage[a]).quantity
        && log == old(log) + TradeReports(sn0.mem[a].orderId, t)
        && fillsExecuted == old(fillsExecuted) + 1
      ensures !more ==>
        && Progress(sn0, Now(book), a, side, limit, done)
        && log == old(log) && fillsExecuted == old(fillsExecuted)
        && var s := Now(book).List(Opposite(side)); s == [] || !Crosses(side, limit, s[0].price)
    {
      ghost var sn := Now(book);
      var opp := Opposite(side);
      OpenProgress(sn0, sn, a, side, limit, done);
      PickFront(sn, a, opp);
      var best := book.Best(opp);
      if best == NO_BEST {
        return false, Trade(0, 0, 0, 0, 0);
      }
      if !Crosses(side, limit, book.SideLevels(opp)[best].price) {
        return false, Trade(0, 0, 0, 0, 0);
      }
      SweepOnce(a, book, opp, book.SideLevels(opp)[best].head);
      ProgressStep(sn0, sn, Now(book), a, side, limit, done);
      OpenTrade(sn, Now(book), a, opp);
      more, t := true, TradeAt(sn.List(opp), sn.mem[a].quantity);
    }

    /** Trade until the aggressor is filled, the side is empty, or the best price no longer crosses. */
    method DoSweep(a: int, book: OrderBook, side: Side, limit: Option<int>)
      requires pool.Valid() && Now(book).Ok(a)
      modifies this`log, this`fillsExecuted, pool, pool.storage, book
      ensures pool.Valid()
      ensures var w := Sweep(old(Now(book)).List(Opposite(side)), side, limit, old(pool.storage[a]).quantity);
        && SweptTo(old(Now(book)), Now(book), a, side, w)
        && log == old(log) + SweepReports(old(pool.storage[a]).orderId, w.trades)
        && fillsExecuted == old(fillsExecuted) + |w.trades|
    {
      ghost var sn0 := Now(book);
      ghost var done: seq<Trade> := [];
      SweepStarts(sn0, a, side, limit);
      var more := true;
      while more && pool.storage[a].quantity > 0
        invariant pool.Valid() && 0 <= a < |sn0.mem| == pool.storage.Length
        invariant Progress(sn0, Now(book), a, side, limit, done)
        invariant log == old(log) + SweepReports(sn0.mem[a].orderId, done)
        invariant fillsExecuted == old(fillsExecuted) + |done|
        invariant !more ==> var s := Now(book).List(Opposite(side)); s == [] || !Crosses(side, limit, s[0].price)
        decreases more, pool.storage[a].quantity
      {
        ghost var t;
        more, t := SweepTurn(a, book, side, limit, sn0, done);
        if more {
          ReportsAppend(sn0.mem[a].orderId, done, t);
          done := done + [t];
        }
      }
      ProgressEnds(sn0, Now(book), a, side, limit, done);
    }

    // ------------------------------------------------------------ order types

    /** Take a slot for the order and fill it in from the message. */
    method Admit(m: Msg, now: nat, ghost book: OrderBook) returns (a: int)
      requires pool.Valid() && Apart(pool.storage[..], pool.free, book.Val())
      modifies pool, pool.storage
      ensures pool.Valid()
      ensures old(pool.free) == [] ==> a == NIL && Now(book) == old(Now(book))
      ensures old(pool.free) != [] ==>
        && 0 <= a < pool.storage.Length
        && Taken(old(Now(book)), Now(book), a) && Carries(pool.storage[a], m, now)
        && pool.storage[a].orderType == m.orderType
    {
      ghost var orig := Now(book);
      a := pool.Acquire();
      if a == NIL {
        return;
      }
      ghost var mem := pool.storage[..];
      pool.storage[a] := Order(m.orderId, m.price, now, m.quantity, m.quantity, m.instrumentId,
                               SideOf(m.side), m.orderType, New, NIL, NIL, m.clientId);
      FreelistFrame(mem, pool.storage[..], pool.free);
      assert orig.free == [a] + pool.free;
      TakeSlot(orig, a, pool.free, pool.storage[..]);
    }

    method PostReject(id: nat, qty: nat)
      modifies this`log
      ensures log == old(log) + [RejectReport(id, qty)]
    {
      log := log + [Report(Reject, id, 0, 0, 0, qty)];
    }

    method PostCancelAck(id: nat, leaves: nat)
      modifies this`log
      ensures log == old(log) + [CancelReport(id, leaves)]
    {
      log := log + [Report(CancelAck, id, 0, 0, 0, leaves)];
    }

    /** Queue the unfilled rest of a limit order.  When its price has no level the book does
        nothing and the slot is not given back. */
    method RestResidual(a: int, book: OrderBook, ghost st: State, ghost m: Msg, ghost now: nat, ghost orig: Snap, ghost sn: Snap)
      requires pool.Valid() && Started(st, m, now, orig, leaked, sn, a)
      requires m.kind == NEW_ORDER && m.orderType == LIMIT && Accepted(st, m) && Admissible(st, m)
      requires SweptTo(sn, Now(book), a, SideOf(m.side), SweepOf(st, m)) && SweepOf(st, m).left > 0
      modifies this`leaked, pool.storage, book
      ensures pool.Valid()
      ensures Finished(st, m, now, orig, old(leaked), Now(book), leaked)
    {
      ghost var sn' := Now(book);
      OpenSwept(sn, sn', a, SideOf(m.side), SweepOf(st, m));
      if Rests(st, m) {
        MayRest(st, m, now, orig, leaked, sn, sn', a);
      }
      book.AddOrder(pool.storage, a);
      if Rests(st, m) {
        FreelistFrame(sn'.mem, pool.storage[..], pool.free);
        FinishRested(st, m, now, orig, leaked, sn, sn', a, book.Val(), pool.storage[..]);
      } else {
        FinishLeaked(st, m, now, orig, leaked, sn, sn', a);
        leaked := leaked + {a};
      }
    }

    /** Give back the slot of an order that neither rests nor leaks. */
    method ReleaseOrder(a: int, ghost book: OrderBook, ghost st: State, ghost m: Msg, ghost now: nat, ghost orig: Snap, ghost sn: Snap)
      requires pool.Valid() && Started(st, m, now, orig, leaked, sn, a)
      requires Accepted(st, m) && !Rests(st, m) && !Leaks(st, m)
      requires SweptTo(sn, Now(book), a, SideOf(m.side), SweepOf(st, m))
      modifies pool, pool.storage
      ensures pool.Valid()
      ensures Finished(st, m, now, orig, leaked, Now(book), leaked)
    {
      ghost var sn' := Now(book);
      OpenSwept(sn, sn', a, SideOf(m.side), SweepOf(st, m));
      pool.Release(a);
      FinishReleased(st, m, now, orig, leaked, sn, sn', a, pool.storage[..]);
    }

    /** Limit: sweep what crosses, then rest what is left. */
    method MatchLimit(a: int, book: OrderBook, ghost st: State, ghost m: Msg, ghost now: nat, ghost orig: Snap)
      requires pool.Valid() && Started(st, m, now, orig, leaked, Now(book), a)
      requires m.kind == NEW_ORDER && m.orderType == LIMIT && Accepted(st, m) && Admissible(st, m)
      modifies this`log, this`fillsExecuted, this`leaked, pool, pool.storage, book
      ensures pool.Valid()
      ensures Finished(st, m, now, orig, old(leaked), Now(book), leaked)
      ensures log == old(log) + ReportsAfter(st, m)
      ensures fillsExecuted == old(fillsExecuted) + |SweepOf(st, m).trades|
    {
      ghost var sn := Now(book);
      StartedSweep(st, m, now, orig, leaked, sn, a);
      DoSweep(a, book, pool.storage[a].side, Some(pool.storage[a].price));
      SweptLeft(sn, Now(book), a, SideOf(m.side), SweepOf(st, m));
      if pool.storage[a].quantity > 0 {
        RestResidual(a, book, st, m, now, orig, sn);
      } else {
        ReleaseOrder(a, book, st, m, now, orig, sn);
      }
    }

    /** Market and immediate-or-cancel: sweep, acknowledge the cancelled rest, never rest. */
    method MatchAndCancel(a: int, book: OrderBook, limit: Option<int>, ghost st: State, ghost m: Msg, ghost now: nat, ghost orig: Snap)
      requires pool.Valid() && Started(st, m, now, orig, leaked, Now(book), a)
      requires Accepted(st, m) && (m.orderType == MARKET || m.orderType == IOC) && limit == LimitOf(m)
      modifies this`log, this`fillsExecuted, pool, pool.storage, book
      ensures pool.Valid()
      ensures Finished(st, m, now, orig, leaked, Now(book), leaked)
      ensures log == old(log) + ReportsAfter(st, m)
      ensures fillsExecuted == old(fillsExecuted) + |SweepOf(st, m).trades|
    {
      ghost var sn := Now(book);
      StartedSweep(st, m, now, orig, leaked, sn, a);
      DoSweep(a, book, pool.storage[a].side, limit);
      SweptLeft(sn, Now(book), a, SideOf(m.side), SweepOf(st, m));
      ghost var w := SweepOf(st, m);
      if pool.storage[a].quantity > 0 {
        PostCancelAck(pool.storage[a].orderId, pool.storage[a].quantity);
        AppendTwice(old(log), SweepReports(m.orderId, w.trades), [CancelReport(m.orderId, w.left)]);
      }
      ReleaseOrder(a, book, st, m, now, orig, sn);
    }

    /** Refuse an order already in hand. */
    method RefuseInHand(a: int, ghost book: OrderBook, ghost st: State, ghost m: Msg, ghost now: nat, ghost orig: Snap)
      requires pool.Valid() && Started(st, m, now, orig, leaked, Now(book), a) && !Accepted(st, m)
      modifies this`log, this`ordersRejected, pool, pool.storage
      ensures pool.Valid()
      ensures Finished(st, m, now, orig, leaked, Now(book), leaked)
      ensures log == old(log) + [RejectReport(m.orderId, m.quantity)]
      ensures ordersRejected == old(ordersRejected) + 1
    {
      ghost var sn := Now(book);
      PostReject(pool.storage[a].orderId, pool.storage[a].quantity);
      pool.Release(a);
      ordersRejected := ordersRejected + 1;
      FinishRejected(st, m, now, orig, leaked, sn, a, pool.storage[..]);
    }

    /** Fill-or-kill: check the quantity first, then sweep; the slot goes back either way. */
    method MatchFok(a: int, book: OrderBook, ghost st: State, ghost m: Msg, ghost now: nat, ghost orig: Snap)
      requires pool.Valid() && Started(st, m, now, orig, leaked, Now(book), a) && m.orderType == FOK
      modifies this`log, this`fillsExecuted, this`ordersRejected, pool, pool.storage, book
      ensures pool.Valid()
      ensures Finished(st, m, now, orig, leaked, Now(book), leaked)
      ensures Accepted(st, m) ==>
        && log == old(log) + ReportsAfter(st, m)
        && fillsExecuted == old(fillsExecuted) + |SweepOf(st, m).trades|
        && ordersRejected == old(ordersRejected)
      ensures !Accepted(st, m) ==>
        && log == old(log) + [RejectReport(m.orderId, m.quantity)]
        && fillsExecuted == old(fillsExecuted)
        && ordersRejected == old(ordersRejected) + 1
    {
      ghost var sn := Now(book);
      StartedSweep(st, m, now, orig, leaked, sn, a);
      var available := book.AvailableQuantityAtOrBetter(pool.storage[a].side, pool.storage[a].price, pool.storage[..]);
      if available < pool.storage[a].quantity {
        RefuseInHand(a, book, st, m, now, orig);
        return;
      }
      DoSweep(a, book, pool.storage[a].side, Some(pool.storage[a].price));
      SweptLeft(sn, Now(book), a, SideOf(m.side), SweepOf(st, m));
      ReleaseOrder(a, book, st, m, now, orig, sn);
    }

    // ------------------------------------------------------------ the whole engine

    /** `model` is the reference state the engine is in, and `vals` the values of its books. */
    ghost predicate Sound()
      reads this`model, this`vals, this`leaked, this`fillsExecuted, this`ordersRejected, pool, pool.storage
    {
      pool.Valid() && StandsFor(model, pool.storage[..], pool.free, vals, leaked, fillsExecuted, ordersRejected)
    }

    /** The one book a message may write. */
    ghost function BookOf(m: Msg): set<OrderBook>
      reads this`books
    {
      if m.instrumentId in books then {books[m.instrumentId]} else {}
    }

    /** The engine refines its model: sound, and every book is filed under its own instrument. */
    ghost predicate Refines()
      reads this`model, this`vals, this`leaked, this`fillsExecuted, this`ordersRejected, this`books
      reads pool, pool.storage, books.Values
    {
      Sound() && Filed(vals)
    }

    /** The engine invariant: it refines its model, and the model is healthy. */
    ghost predicate Valid()
      reads this`model, this`vals, this`leaked, this`fillsExecuted, this`ordersRejected, this`books, this`clock
      reads pool, pool.storage, books.Values
    {
      Refines() && Healthy(model, clock, pool.storage.Length)
    }

    /** Every book is filed under its own instrument and has the given value. */
    ghost predicate Filed(vals: map<nat, BookVal>)
      reads this`books, books.Values
    {
      && vals.Keys == books.Keys
      && (forall k :: k in books ==> books[k].instrumentId == k && books[k].Val() == vals[k])
    }

    /** Pick the matching strategy for an admitted order. */
    method Route(a: int, book: OrderBook, m: Msg, ghost now: nat, ghost st: State, ghost orig: Snap)
      requires pool.Valid() && Started(st, m, now, orig, leaked, Now(book), a)
      requires m.kind == NEW_ORDER && Admissible(st, m) && pool.storage[a].orderType == m.orderType
      modifies this`log, this`fillsExecuted, this`ordersRejected, this`leaked, pool, pool.storage, book
      ensures pool.Valid()
      ensures Finished(st, m, now, orig, old(leaked), Now(book), leaked)
      ensures var o := StepNew(st, m, now);
        && log == old(log) + o.reports
        && fillsExecuted - old(fillsExecuted) == o.state.fills - st.fills
        && ordersRejected - old(ordersRejected) == o.state.rejected - st.rejected
    {
      StartedSweep(st, m, now, orig, leaked, Now(book), a);
      var t := pool.storage[a].orderType;
      if t == LIMIT {
        MatchLimit(a, book, st, m, now, orig);
      } else if t == MARKET {
        MatchAndCancel(a, book, None, st, m, now, orig);
      } else if t == IOC {
        MatchAndCancel(a, book, Some(pool.storage[a].price), st, m, now, orig);
      } else if t == FOK {
        MatchFok(a, book, st, m, now, orig);
      } else {
        RefuseInHand(a, book, st, m, now, orig);
      }
    }

    /** A new order for a known instrument: take a slot and match, or refuse when there is none. */
    method ExecuteNew(book: OrderBook, m: Msg, now: nat, ghost st: State)
      requires pool.Valid() && Apart(pool.storage[..], pool.free, book.Val())
      requires book.instrumentId == m.instrumentId
      requires Mirrors(st, m.instrumentId, Now(book), leaked) && LeaksClear(Now(book), leaked)
      requires m.kind == NEW_ORDER && Admissible(st, m)
      modifies this`log, this`fillsExecuted, this`ordersRejected, this`leaked, pool, pool.storage, book
      ensures pool.Valid()
      ensures Finished(st, m, now, old(Now(book)), old(leaked), Now(book), leaked)
      ensures var o := StepNew(st, m, now);
        && log == old(log) + o.reports
        && fillsExecuted - old(fillsExecuted) == o.state.fills - st.fills
        && ordersRejected - old(ordersRejected) == o.state.rejected - st.rejected
    {
      ghost var orig := Now(book);
      var a := Admit(m, now, book);
      if a == NIL {
        PostReject(m.orderId, m.quantity);
        ordersRejected := ordersRejected + 1;
        FinishExhausted(st, m, now, orig, leaked);
        return;
      }
      Route(a, book, m, now, st, orig);
    }

    /** An order for an instrument nobody registered. */
    method RefuseUnknown(m: Msg, ghost now: nat)
      requires Sound() && m.instrumentId !in vals
      modifies this`log, this`ordersRejected, this`model
      ensures Sound()
      ensures var o := StepNew(old(model), m, now); model == o.state && log == old(log) + o.reports
    {
      ConcludeUnknown(model, pool.storage[..], pool.free, vals, leaked, fillsExecuted, ordersRejected, m, now);
      PostReject(m.orderId, m.quantity);
      ordersRejected := ordersRejected + 1;
      model := StepNew(model, m, now).state;
    }

    /** An order for a registered instrument. */
    method HandleKnown(book: OrderBook, m: Msg, now: nat)
      requires Sound() && m.instrumentId in vals && vals[m.instrumentId] == book.Val()
      requires m.kind == NEW_ORDER && Admissible(model, m)
      modifies this`log, this`fillsExecuted, this`ordersRejected, this`leaked, this`vals, this`model, pool, pool.storage, book
      ensures Sound() && vals == old(vals)[m.instrumentId := book.Val()]
      ensures var o := StepNew(old(model), m, now); model == o.state && log == old(log) + o.reports
    {
      ghost var mem, free, was, fills, rejected := pool.storage[..], pool.free, leaked, fillsExecuted, ordersRejected;
      Begin(model, mem, free, vals, leaked, fills, rejected, m.instrumentId);
      ExecuteNew(book, m, now, model);
      ConcludeNew(model, mem, free, vals, was, fills, rejected, m, now, Now(book), leaked, fillsExecuted, ordersRejected);
      vals := vals[m.instrumentId := book.Val()];
      model := StepNew(model, m, now).state;
    }

    /** A new order: find the book, take a slot, match. */
    method HandleNewOrder(m: Msg, now: nat)
      requires Refines() && m.kind == NEW_ORDER && Admissible(model, m)
      modifies this`log, this`fillsExecuted, this`ordersRejected, this`leaked, this`vals, this`model, pool, pool.storage
      modifies BookOf(m)
      ensures Refines()
      ensures var o := StepNew(old(model), m, now); model == o.state && log == old(log) + o.reports
    {
      if m.instrumentId !in books {
        RefuseUnknown(m, now);
      } else {
        HandleKnown(books[m.instrumentId], m, now);
      }
    }

    /** Splice a resting order out, acknowledge it, give its slot back. */
    method ExecuteCancel(book: OrderBook, id: nat) returns (ghost reports: seq<Report>)
      requires pool.Valid() && Apart(pool.storage[..], pool.free, book.Val()) && LeaksClear(Now(book), leaked)
      requires id in book.index
      modifies this`log, pool, pool.storage, book
      ensures pool.Valid()
      ensures LocalStep(old(pool.storage[..]), old(pool.free), old(book.Val()), leaked,
                        pool.storage[..], pool.free, book.Val(), leaked)
      ensures log == old(log) + reports
      ensures CancelDone(old(book.View(pool.storage[..])), book.View(pool.storage[..]),
                         |old(pool.free)|, |pool.free|, id, reports)
    {
      ghost var sn := Now(book);
      IndexedSide(book.Val(), sn.mem, id);
      var o := book.index[id];
      var leaves := pool.storage[o].quantity;
      book.CancelOrder(pool.storage, o);
      ghost var mem1 := pool.storage[..];
      CancelledLocal(sn.mem, sn.free, sn.v, leaked, o, mem1, book.Val(),
                     mem1[o := mem1[o].(next := First(sn.free), prev := NIL)]);
      PostCancelAck(pool.storage[o].orderId, leaves);
      reports := [CancelReport(id, leaves)];
      pool.Release(o);
    }

    /** Cancel an order that rests. */
    method CancelKnown(book: OrderBook, m: Msg)
      requires Sound() && m.instrumentId in vals && vals[m.instrumentId] == book.Val() && m.orderId in book.index
      modifies this`log, this`vals, this`model, pool, pool.storage, book
      ensures Sound() && vals == old(vals)[m.instrumentId := book.Val()]
      ensures var o := StepCancel(old(model), m); model == o.state && log == old(log) + o.reports
    {
      ghost var mem, free := pool.storage[..], pool.free;
      Begin(model, mem, free, vals, leaked, fillsExecuted, ordersRejected, m.instrumentId);
      ghost var reports := ExecuteCancel(book, m.orderId);
      ConcludeCancel(model, mem, free, vals, leaked, fillsExecuted, ordersRejected, m, Now(book), reports);
      vals := vals[m.instrumentId := book.Val()];
      model := StepCancel(model, m).state;
    }

    /** A cancel: an unknown instrument or id is ignored. */
    method HandleCancel(m: Msg)
      requires Refines()
      modifies this`log, this`vals, this`model, pool, pool.storage
      modifies BookOf(m)
      ensures Refines()
      ensures var o := StepCancel(old(model), m); model == o.state && log == old(log) + o.reports
    {
      if m.instrumentId in books && m.orderId in books[m.instrumentId].index {
        CancelKnown(books[m.instrumentId], m);
      } else {
        CancelsNothing(model, pool.storage[..], pool.free, vals, leaked, fillsExecuted, ordersRejected, m);
      }
    }

    /** Route one message.  Modify is handled as a cancel; other kinds are ignored. */
    method Handle(m: Msg, now: nat)
      requires Refines() && Admissible(model, m)
      modifies this`log, this`fillsExecuted, this`ordersRejected, this`leaked, this`vals, this`model, pool, pool.storage
      modifies BookOf(m)
      ensures Refines()
      ensures var o := Step(old(model), m, now); model == o.state && log == old(log) + o.reports
    {
      if m.kind == NEW_ORDER {
        HandleNewOrder(m, now);
      } else if m.kind == CANCEL || m.kind == MODIFY {
        HandleCancel(m);
      }
    }

    /** Process one message at time `now`. */
    method Dispatch(m: Msg, now: nat)
      requires Valid() && clock <= now && Admissible(model, m)
      modifies this`log, this`fillsExecuted, this`ordersRejected, this`leaked, this`vals, this`model, this`clock
      modifies pool, pool.storage, BookOf(m)
      ensures Valid() && clock == now
      ensures var o := Step(old(model), m, now); model == o.state && log == old(log) + o.reports
    {
      StepIsHealthy(model, clock, pool.storage.Length, m, now);
      Handle(m, now);
      Tick(now);
    }

    ghost method Tick(now: nat)
      requires Refines() && Healthy(model, now, pool.storage.Length)
      modifies this`clock
      ensures Valid() && clock == now && model == old(model) && log == old(log)
    {
      clock := now;
    }

    /** Process one message directly. */
    method Submit(m: Msg, now: nat)
      requires Valid() && clock <= now && Admissible(model, m)
      modifies this`log, this`fillsExecuted, this`ordersRejected, this`leaked, this`vals, this`model, this`clock
      modifies this`ordersProcessed, pool, pool.storage, BookOf(m)
      ensures Valid() && clock == now
      ensures var o := Step(old(model), m, now); model == o.state && log == old(log) + o.reports
      ensures ordersProcessed == old(ordersProcessed) + 1
    {
      Dispatch(m, now);
      Count(1);
    }

    method Count(n: nat)
      requires Valid()
      modifies this`ordersProcessed
      ensures Valid()
      ensures ordersProcessed == old(ordersProcessed) + n && model == old(model) && log == old(log) && clock == old(clock)
    {
      ordersProcessed := ordersProcessed + n;
    }

    /** Dispatch message `i` of a run that started in `st` with `log0` reported. */
    method PollOne(batch: seq<Stamped>, i: nat, ghost st: State, ghost log0: seq<Report>)
      requires Valid() && AdmissibleRun(st, batch) && i < |batch| && clock <= batch[i].now
      requires CameTo(st, batch, i, log0, model, log)
      modifies this`log, this`fillsExecuted, this`ordersRejected, this`leaked, this`vals, this`model, this`clock
      modifies pool, pool.storage
      modifies BookOf(batch[i].msg)
      ensures Valid() && clock == batch[i].now && CameTo(st, batch, i + 1, log0, model, log)
    {
      NextAdmissible(st, batch, i, log0, model, log);
      ghost var model0, log1 := model, log;
      Dispatch(batch[i].msg, batch[i].now);
      ComesTo(st, batch, i, log0, model0, log1, model, log);
    }

    /** Dispatch the messages in order. */
    method Drain(batch: seq<Stamped>)
      requires Valid() && AdmissibleRun(model, batch) && RunLaws.Monotone(clock, batch)
      modifies this`log, this`fillsExecuted, this`ordersRejected, this`leaked, this`vals, this`model, this`clock
      modifies pool, pool.storage, books.Values
      ensures Valid() && clock == RunLaws.ClockAfter(old(clock), batch)
      ensures var o := Run(old(model), batch); model == o.state && log == old(log) + o.reports
    {
      ghost var st, start, log0 := model, clock, log;
      var i := 0;
      ComesFrom(st, batch, log);
      while i < |batch|
        invariant 0 <= i <= |batch|
        invariant Valid() && clock == ClockAt(start, batch, i)
        invariant CameTo(st, batch, i, log0, model, log)
      {
        ClockRuns(start, batch, i);
        PollOne(batch, i, st, log0);
        i := i + 1;
      }
      CameThrough(st, start, batch, log0, model, log);
    }

    /** Take up to `maxBatch` messages, and never more than 64, off the queue and process them in order. */
    method Poll(queue: seq<Stamped>, maxBatch: nat) returns (n: nat)
      requires var taken := queue[..Min(Min(maxBatch, 64), |queue|)];
        Valid() && AdmissibleRun(model, taken) && RunLaws.Monotone(clock, taken)
      modifies this`log, this`fillsExecuted, this`ordersRejected, this`leaked, this`vals, this`model, this`clock
      modifies this`ordersProcessed, pool, pool.storage, books.Values
      ensures n == Min(Min(maxBatch, 64), |queue|)
      ensures Valid() && clock == RunLaws.ClockAfter(old(clock), queue[..n])
      ensures var o := Run(old(model), queue[..n]); model == o.state && log == old(log) + o.reports
      ensures ordersProcessed == old(ordersProcessed) + n
    {
      n := Min(Min(maxBatch, 64), |queue|);
      Drain(queue[..n]);
      Count(n);
    }

    /** Submit message `i` of a run that started in `st` with `log0` reported. */
    method SubmitOne(queue: seq<Stamped>, i: nat, ghost st: State, ghost log0: seq<Report>)
      requires Valid() && AdmissibleRun(st, queue) && i < |queue| && clock <= queue[i].now
      requires CameTo(st, queue, i, log0, model, log)
      modifies this`log, this`fillsExecuted, this`ordersRejected, this`leaked, this`vals, this`model, this`clock
      modifies this`ordersProcessed, pool, pool.storage, BookOf(queue[i].msg)
      ensures Valid() && clock == queue[i].now && CameTo(st, queue, i + 1, log0, model, log)
      ensures ordersProcessed == old(ordersProcessed) + 1
    {
      NextAdmissible(st, queue, i, log0, model, log);
      ghost var model0, log1 := model, log;
      Submit(queue[i].msg, queue[i].now);
      ComesTo(st, queue, i, log0, model0, log1, model, log);
    }

    method SubmitFirst(queue: seq<Stamped>, n: nat)
      requires Valid() && AdmissibleRun(model, queue) && RunLaws.Monotone(clock, queue) && n <= |queue|
      modifies this`log, this`fillsExecuted, this`ordersRejected, this`leaked, this`vals, this`model, this`clock
      modifies this`ordersProcessed, pool, pool.storage, books.Values
      ensures Valid() && clock == ClockAt(old(clock), queue, n) && CameTo(old(model), queue, n, old(log), model, log)
      ensures ordersProcessed == old(ordersProcessed) + n
      decreases n
    {
      if n == 0 {
        ComesFrom(model, queue, log);
        return;
      }
      ClockRuns(clock, queue, n - 1);
      SubmitFirst(queue, n - 1);
      SubmitOne(queue, n - 1, old(model), old(log));
    }

    /** Submit the messages one by one. */
    method SubmitAll(queue: seq<Stamped>)
      requires Valid() && AdmissibleRun(model, queue) && RunLaws.Monotone(clock, queue)
      modifies this`log, this`fillsExecuted, this`ordersRejected, this`leaked, this`vals, this`model, this`clock
      modifies this`ordersProcessed, pool, pool.storage, books.Values
      ensures Valid() && clock == RunLaws.ClockAfter(old(clock), queue)
      ensures var o := Run(old(model), queue); model == o.state && log == old(log) + o.reports
      ensures ordersProcessed == old(ordersProcessed) + |queue|
    {
      SubmitFirst(queue, |queue|);
      CameThrough(old(model), old(clock), queue, old(log), model, log);
    }

    /** One more poll of a queue of which `n` messages are processed. */
    method PollNext(queue: seq<Stamped>, n: nat, size: nat, ghost st: State, ghost start: nat, ghost log0: seq<Report>)
        returns (k: nat)
      requires Valid() && AdmissibleRun(st, queue) && RunLaws.Monotone(start, queue) && n <= |queue|
      requires CameTo(st, queue, n, log0, model, log) && clock == ClockAt(start, queue, n)
      modifies this`log, this`fillsExecuted, this`ordersRejected, this`leaked, this`vals, this`model, this`clock
      modifies this`ordersProcessed, pool, pool.storage, books.Values
      ensures k == Min(Min(size, 64), |queue| - n) && Valid()
      ensures CameTo(st, queue, n + k, log0, model, log) && clock == ClockAt(start, queue, n + k)
      ensures ordersProcessed == old(ordersProcessed) + k
    {
      ghost var model0, log1 := model, log;
      var tail := queue[n..];
      ghost var rest := tail[..Min(Min(size, 64), |tail|)];
      RestOfRun(st, start, queue, n, rest, log0, model, log);
      k := Poll(tail, size);
      assert tail[..k] == rest;
      ComesFurther(st, start, queue, n, k, rest, log0, model0, log1, model, log);
    }

    /** Process a batch of at most 64 that is the next stretch of a longer run. */
    method PollStretch(batch: seq<Stamped>, ghost queue: seq<Stamped>, ghost n: nat,
                       ghost st: State, ghost start: nat, ghost log0: seq<Report>) returns (k: nat)
      requires Valid() && AdmissibleRun(st, queue) && RunLaws.Monotone(start, queue)
      requires n + |batch| <= |queue| && batch == queue[n..][..|batch|] && |batch| <= 64
      requires CameTo(st, queue, n, log0, model, log) && clock == ClockAt(start, queue, n)
      modifies this`log, this`fillsExecuted, this`ordersRejected, this`leaked, this`vals, this`model, this`clock
      modifies this`ordersProcessed, pool, pool.storage, books.Values
      ensures k == |batch| && Valid() && clock == ClockAt(start, queue, n + k)
      ensures CameTo(st, queue, n + k, log0, model, log)
      ensures ordersProcessed == old(ordersProcessed) + k
    {
      ghost var model0, log1 := model, log;
      ghost var rest := batch[..Min(Min(64, 64), |batch|)];
      assert rest == batch;
      RestOfRun(st, start, queue, n, rest, log0, model, log);
      k := Poll(batch, 64);
      assert batch[..k] == rest;
      ComesFurther(st, start, queue, n, k, rest, log0, model0, log1, model, log);
    }

    method PollEach(queue: seq<Stamped>, sizes: seq<nat>) returns (n: nat)
      requires Valid() && AdmissibleRun(model, queue) && RunLaws.Monotone(clock, queue)
      modifies this`log, this`fillsExecuted, this`ordersRejected, this`leaked, this`vals, this`model, this`clock
      modifies this`ordersProcessed, pool, pool.storage, books.Values
      ensures n == PolledOf(|queue|, sizes) <= |queue|
      ensures Valid() && clock == ClockAt(old(clock), queue, n)
      ensures CameTo(old(model), queue, n, old(log), model, log)
      ensures ordersProcessed == old(ordersProcessed) + n
      decreases |sizes|
    {
      if sizes == [] {
        ComesFrom(model, queue, log);
        return 0;
      }
      var j := |sizes| - 1;
      n := PollEach(queue, sizes[..j]);
      var k := PollNext(queue, n, sizes[j], old(model), old(clock), old(log));
      n := n + k;
    }

    /** Poll with one batch size after the other. */
    method PollAll(queue: seq<Stamped>, sizes: seq<nat>) returns (n: nat)
      requires Valid() && AdmissibleRun(model, queue) && RunLaws.Monotone(clock, queue)
      modifies this`log, this`fillsExecuted, this`ordersRejected, this`leaked, this`vals, this`model, this`clock
      modifies this`ordersProcessed, pool, pool.storage, books.Values
      ensures n == PolledOf(|queue|, sizes) <= |queue|
      ensures Valid() && clock == RunLaws.ClockAfter(old(clock), queue[..n])
      ensures var o := Run(old(model), queue[..n]); model == o.state && log == old(log) + o.reports
      ensures ordersProcessed == old(ordersProcessed) + n
    {
      n := PollEach(queue, sizes);
      CameSoFar(old(model), old(clock), queue, n, old(log), model, log);
    }

    // ------------------------------------------------------- what every engine has

    /** Between messages every book's bid cursor is strictly below its ask cursor. */
    lemma CursorsNeverCross(k: nat)
      requires Valid() && k in books
      ensures books[k].bestBid != NO_BEST && books[k].bestAsk != NO_BEST ==> books[k].bestBid < books[k].bestAsk
    {
      EngineLaws.CursorsNeverCross(model, clock, pool.storage[..], pool.free, vals, leaked, fillsExecuted, ordersRejected, k);
    }

    /** `used_count` is the number of orders resting in all books plus the leaked slots. */
    lemma UsedSlots()
      requires Valid()
      ensures pool.storage.Length - pool.freeCount == RunLaws.LiveTotal(ViewAll(vals, pool.storage[..])) + |leaked|
      ensures |leaked| == model.leaked
    {
      EngineLaws.UsedSlots(model, clock, pool.storage[..], pool.free, vals, leaked, fillsExecuted, ordersRejected);
    }

    /** As long as nothing leaked, every slot is free or queued in its own instrument's book,
        never both, and `used_count` is the number of live orders. */
    lemma PoolIsPartitioned()
      requires Valid() && model.leaked == 0
      ensures leaked == {}
      ensures pool.storage.Length - pool.freeCount == RunLaws.LiveTotal(ViewAll(vals, pool.storage[..]))
      ensures forall x :: 0 <= x < pool.storage.Length ==> (x in pool.free <==> !InItsBook(pool.storage[..], vals, x))
    {
      EngineLaws.PoolIsPartitioned(model, clock, pool.storage[..], pool.free, vals, leaked, fillsExecuted, ordersRejected);
    }

    // -------------------------------------------------------- registration and reset

    /** Register an instrument; an id that is already registered keeps its book. */
    method AddInstrument(id: nat, g: Grid)
      requires Valid() && g.WellFormed()
      modifies this`books, this`vals, this`model
      ensures Valid()
      ensures id in old(books) ==> books == old(books) && model == old(model)
      ensures id !in old(books) ==>
        && id in books && fresh(books[id]) && books == old(books)[id := books[id]]
        && model == WithInstrument(old(model), id, g)
    {
      if id in books {
        return;
      }
      AddedInstrument(model, pool.storage[..], pool.free, vals, leaked, fillsExecuted, ordersRejected, id, g);
      GrownIsHealthy(model, clock, pool.storage.Length, id, g);
      var book := new OrderBook(id, g);
      books := books[id := book];
      vals := vals[id := Blank(g, id)];
      model := WithInstrument(model, id, g);
    }

    /** Empty every book. */
    method ClearBooks(ghost mem: Mem)
      requires Filed(vals) && BooksSound(mem, vals)
      modifies books.Values
      ensures forall k :: k in vals ==> vals[k].grid.WellFormed()
      ensures Filed(BlankAll(vals))
    {
      GridsSound(mem, vals);
      var todo := books.Keys;
      while todo != {}
        invariant todo <= books.Keys
        invariant forall k :: k in todo ==> books[k].Val() == vals[k]
        invariant forall k :: k in books && k !in todo ==> books[k].Val() == Blank(vals[k].grid, k)
        decreases todo
      {
        var k :| k in todo;
        books[k].Clear(mem);
        todo := todo - {k};
      }
      BlankAllOk(vals);
    }

    /** Give every slot back to the pool and empty every book. */
    method ResetState()
      requires Valid()
      modifies this`leaked, this`vals, this`model, pool, pool.storage, books.Values
      ensures Valid()
      ensures model == EmptyState(vals, pool.storage.Length, fillsExecuted, ordersRejected)
      ensures GridsOf(vals) == GridsOf(old(vals))
    {
      ghost var mem := pool.storage[..];
      BooksOfEngine(model, mem, pool.free, vals, leaked, fillsExecuted, ordersRejected);
      pool.Reset();
      ClearBooks(mem);
      ghost var blank := BlankAll(vals);
      BlankAllOk(vals);
      EmptyEngine(pool.storage[..], pool.free, blank, fillsExecuted, ordersRejected);
      EmptyIsHealthy(EmptyState(blank, pool.storage.Length, fillsExecuted, ordersRejected), clock, pool.storage.Length);
      StartAfresh(blank);
    }

    /** Name the empty state as the one the engine is in. */
    ghost method StartAfresh(blank: map<nat, BookVal>)
      requires pool.Valid() && Filed(blank)
      requires StandsFor(EmptyState(blank, pool.storage.Length, fillsExecuted, ordersRejected),
                         pool.storage[..], pool.free, blank, {}, fillsExecuted, ordersRejected)
      requires Healthy(EmptyState(blank, pool.storage.Length, fillsExecuted, ordersRejected), clock, pool.storage.Length)
      modifies this`leaked, this`vals, this`model
      ensures Valid() && vals == blank
      ensures model == EmptyState(blank, pool.storage.Length, fillsExecuted, ordersRejected)
    {
      leaked, vals, model := {}, blank, EmptyState(blank, pool.storage.Length, fillsExecuted, ordersRejected);
    }
  }

  /** The head of the best level is the first order of the list, and has quantity. */
  lemma {:induction false} PickFront(sn: Snap, a: int, opp: Side)
    requires sn.Ok(a)
    ensures var h := sn.v.HalfOf(opp);
      && (h.best == NO_BEST <==> sn.List(opp) == [])
      && (h.best != NO_BEST ==>
            && 0 <= h.best < |h.levels|
            && IsFront(sn, opp, h.levels[h.best].head)
            && h.levels[h.best].price == sn.List(opp)[0].price
            && sn.List(opp)[0].qty > 0
            && sn.mem[h.levels[h.best].head].quantity > 0)
  {
    BestHead(sn.v, sn.mem, opp);
    var h := sn.v.HalfOf(opp);
    if h.best != NO_BEST {
      var o := h.queues[h.best][0];
      assert sn.List(opp)[0].id == sn.mem[o].orderId;
    }
  }

  function Debited(mem: Mem, a: int, fill: U32): Mem
    requires 0 <= a < |mem| && fill <= mem[a].quantity
  {
    mem[a := mem[a].(quantity := mem[a].quantity - fill)]
  }

  lemma {:induction false} TradeDone(
      sn: Snap, a: int, opp: Side, rest: int, mem1: Mem, v2: BookVal, mem2: Mem, done: bool)
    requires sn.Ok(a) && IsFront(sn, opp, rest)
    requires mem1 == Debited(sn.mem, a, Min(sn.mem[rest].quantity, sn.mem[a].quantity))
    requires v2.inst == sn.v.inst && v2.grid == sn.v.grid && BookOk(v2, mem2) && |mem2| == |mem1|
    requires done <==> sn.mem[rest].quantity <= sn.mem[a].quantity
    requires done ==> Dropped(sn.v, mem1, v2, mem2, rest)
    requires !done ==> Reduced(sn.v, mem1, v2, mem2, rest)
    requires mem2[rest].quantity == sn.mem[rest].quantity - Min(sn.mem[rest].quantity, sn.mem[a].quantity)
    ensures IsFreelist(mem2, sn.free) && mem2[a] == mem1[a] && mem2[rest].orderId == sn.mem[rest].orderId
    ensures done ==> rest !in sn.free
    ensures done ==>
      OneTrade(sn, Snap(mem2[rest := mem2[rest].(next := First(sn.free), prev := NIL)], [rest] + sn.free, v2), a, opp)
    ensures !done ==> OneTrade(sn, Snap(mem2, sn.free, v2), a, opp)
  {
    DebitAggressor(sn, a, opp, rest, mem1);
    if done {
      WholeTrade(sn, a, opp, rest, mem1, v2, mem2, mem2[rest := mem2[rest].(next := First(sn.free), prev := NIL)]);
    } else {
      PartTrade(sn, a, opp, rest, mem1, v2, mem2);
    }
  }

  lemma {:induction false} TradeIs(sn: Snap, a: int, opp: Side, rest: int)
    requires 0 <= a < |sn.mem| && IsFront(sn, opp, rest)
    ensures var r, q := sn.mem[rest], sn.mem[a].quantity; var f := Min(r.quantity, q);
      TradeAt(sn.List(opp), q) == Trade(r.orderId, r.price, f, r.quantity - f, q - f)
  {
  }

  lemma {:induction false} SweptLeft(sn: Snap, sn': Snap, a: int, side: Side, w: Swept)
    requires SweptTo(sn, sn', a, side, w)
    ensures 0 <= a < |sn.mem| && a < |sn'.mem|
    ensures sn'.mem[a].quantity == w.left && sn'.mem[a].orderId == sn.mem[a].orderId
  {
    OpenSwept(sn, sn', a, side, w);
  }

  lemma {:induction false} SweepStarts(sn: Snap, a: int, side: Side, limit: Option<int>)
    requires sn.Ok(a)
    ensures Progress(sn, sn, a, side, limit, [])
  {
    var w := Sweep(sn.List(Opposite(side)), side, limit, sn.mem[a].quantity);
    assert [] + w.trades == w.trades;
  }

  /** Messages taken off a queue of `len` by polls of these sizes. */
  function PolledOf(len: nat, sizes: seq<nat>): (n: nat)
    ensures n <= len
  {
    if sizes == [] then 0
    else
      var before := PolledOf(len, sizes[..|sizes| - 1]);
      before + Min(Min(sizes[|sizes| - 1], 64), len - before)
  }
}
