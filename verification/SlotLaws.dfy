/** When the freelist and the resting orders partition the pool: slots over whole runs. */
module SlotLaws {
  import opened Types
  import opened Folding
  import opened Reference
  import opened SweepLaws
  import opened RunLaws

  /** What a client can check before sending: a limit order for a known instrument names a
      price that has a level.  (An order for nothing never rests, so its price is free.) */
  predicate HasLevel(grids: map<nat, Grid>, m: Msg) {
    m.kind == NEW_ORDER && m.orderType == LIMIT && m.quantity > 0
    && m.instrumentId in grids && grids[m.instrumentId].tick > 0
    ==> grids[m.instrumentId].IsValidPrice(m.price)
  }

  predicate LeaksAt(st: State, m: Msg) {
    m.kind == NEW_ORDER && Accepted(st, m) && Leaks(st, m)
  }

  /** How many messages of the run leave a slot to nobody. */
  function LeakCount(st: State, ms: seq<Stamped>): nat {
    if ms == [] then 0
    else
      var n := |ms| - 1;
      LeakCount(st, ms[..n]) + if LeaksAt(Run(st, ms[..n]).state, ms[n].msg) then 1 else 0
  }

  lemma {:induction false} StepLeaks(st: State, m: Msg, now: nat)
    ensures var after := Step(st, m, now).state;
      after.grids == st.grids && after.leaked == st.leaked + if LeaksAt(st, m) then 1 else 0
  {
  }

  /** A message whose price has a level leaks no slot, whatever the state. */
  lemma {:induction false} LevelledStep(st: State, m: Msg)
    requires HasLevel(st.grids, m)
    ensures !LeaksAt(st, m)
  {
    if LeaksAt(st, m) {
      SweepLeaves(st.books[m.instrumentId].SideList(Opposite(SideOf(m.side))), SideOf(m.side), LimitOf(m), m.quantity);
    }
  }

  lemma {:induction false} SweepLeaves(s: seq<Resting>, side: Side, limit: Option<int>, q: nat)
    ensures Sweep(s, side, limit, q).left <= q
    decreases |s|
  {
    if q > 0 && s != [] && Crosses(side, limit, s[0].price) && s[0].qty <= q {
      SweepLeaves(s[1..], side, limit, q - s[0].qty);
    }
  }

  /** The leaked slots of a run are exactly its leaking messages. */
  lemma {:induction false} RunLeaks(st: State, ms: seq<Stamped>)
    ensures var after := Run(st, ms).state;
      after.grids == st.grids && after.leaked == st.leaked + LeakCount(st, ms)
  {
    if ms != [] {
      var n := |ms| - 1;
      RunLeaks(st, ms[..n]);
      StepLeaks(Run(st, ms[..n]).state, ms[n].msg, ms[n].now);
    }
  }

  ghost predicate AllLevelled(grids: map<nat, Grid>, ms: seq<Stamped>) {
    forall i :: 0 <= i < |ms| ==> HasLevel(grids, ms[i].msg)
  }

  /** A run whose limit orders all name prices with levels leaks nothing. */
  lemma {:induction false} RunLeaksNothing(st: State, ms: seq<Stamped>)
    requires AllLevelled(st.grids, ms)
    ensures LeakCount(st, ms) == 0 && Run(st, ms).state.leaked == st.leaked
  {
    RunLeaks(st, ms);
    if ms != [] {
      var n := |ms| - 1;
      RunLeaksNothing(st, ms[..n]);
      RunLeaks(st, ms[..n]);
      LevelledStep(Run(st, ms[..n]).state, ms[n].msg);
    }
  }

  // --------------------------------------------------------------- partition

  /** Every slot is free or taken by a resting order: `used_count` is the live orders. */
  ghost predicate Partitioned(st: State, capacity: nat) {
    st.free + LiveTotal(st.books) == capacity
  }

  /** Over a run the partition loses exactly the leaked slots. */
  lemma {:induction false} RunPartition(st: State, ms: seq<Stamped>, capacity: nat)
    requires Partitioned(st, capacity)
    ensures var after := Run(st, ms).state; after.free + LiveTotal(after.books) == capacity - LeakCount(st, ms)
  {
    RunAccountsSlots(st, ms, capacity + st.leaked);
    RunLeaks(st, ms);
  }

  /** Clients that send only messages `ok` allows. */
  ghost predicate AllAllowed(ok: Msg -> bool, ms: seq<Stamped>) {
    forall i :: 0 <= i < |ms| ==> ok(ms[i].msg)
  }

  /** `ms` is a run of allowed messages on these instruments, from a sound state without leaks. */
  ghost predicate AllowedRun(grids: map<nat, Grid>, ok: Msg -> bool, st: State, start: nat, ms: seq<Stamped>, capacity: nat) {
    && StateOk(st, start) && Monotone(start, ms) && AdmissibleRun(st, ms)
    && st.grids == grids && AllAllowed(ok, ms) && Partitioned(st, capacity)
  }

  ghost predicate KeepsPartition(grids: map<nat, Grid>, ok: Msg -> bool) {
    forall st, start, ms, capacity :: AllowedRun(grids, ok, st, start, ms, capacity) ==> Partitioned(Run(st, ms).state, capacity)
  }

  /** The freelist and the resting orders partition the pool in every run if and only if the
      messages clients may send name prices with levels. */
  lemma {:induction false} PartitionExactly(grids: map<nat, Grid>, ok: Msg -> bool)
    requires forall k :: k in grids ==> grids[k].WellFormed()
    ensures KeepsPartition(grids, ok) <==> forall m :: ok(m) ==> HasLevel(grids, m)
  {
    if forall m :: ok(m) ==> HasLevel(grids, m) {
      forall st, start, ms, capacity | AllowedRun(grids, ok, st, start, ms, capacity)
        ensures Partitioned(Run(st, ms).state, capacity)
      {
        RunLeaksNothing(st, ms);
        RunPartition(st, ms, capacity);
      }
    } else {
      var m :| ok(m) && !HasLevel(grids, m);
      PartitionBreaks(grids, ok, m);
    }
  }

  /** One allowed order without a level is enough. */
  lemma {:induction false} PartitionBreaks(grids: map<nat, Grid>, ok: Msg -> bool, m: Msg)
    requires forall k :: k in grids ==> grids[k].WellFormed()
    requires ok(m) && !HasLevel(grids, m)
    ensures !KeepsPartition(grids, ok)
  {
    var st := State(grids, map k | k in grids :: Book([], []), 1, 0, 0, 0);
    var ms, capacity := [Stamped(m, 0)], 1 + LiveTotal(st.books);
    OneLeak(st, m);
    EmptyRun(st, m);
    RunPartition(st, ms, capacity);
    assert AllowedRun(grids, ok, st, 0, ms, capacity);
    assert !Partitioned(Run(st, ms).state, capacity);
  }

  /** A limit order without a level, sent to an empty book, leaks. */
  lemma {:induction false} OneLeak(st: State, m: Msg)
    requires !HasLevel(st.grids, m) && st.free > 0
    requires m.instrumentId in st.books && st.books[m.instrumentId] == Book([], [])
    ensures LeaksAt(st, m) && Admissible(st, m)
    ensures LeakCount(st, [Stamped(m, 0)]) == 1
  {
    var ms := [Stamped(m, 0)];
    assert ms[..0] == [];
    assert Run(st, ms[..0]).state == st;
  }

  lemma {:induction false} EmptyRun(st: State, m: Msg)
    requires Admissible(st, m)
    ensures AdmissibleRun(st, [Stamped(m, 0)])
  {
    var ms := [Stamped(m, 0)];
    assert ms[..0] == [];
  }
}
