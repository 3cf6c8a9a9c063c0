/** What every state an engine can be in has: it holds at the start, registration and reset
    establish or keep it, and every message keeps it. */
module Health {
  import opened Types
  import opened Folding
  import opened Reference
  import opened SweepLaws
  import opened RunLaws
  import opened OrderLaws

  // The signs are named one by one so that the solver unfolds only those a proof asks for.
  datatype Sign = BooksSign | SlotsSign | IdsSign

  ghost predicate SignOk(c: Sign, st: State, clock: nat, capacity: nat) {
    match c
    case BooksSign => StateOk(st, clock)
    case SlotsSign => SlotsAccounted(st, capacity)
    case IdsSign => StateDistinct(st)
  }

  /** Books sorted, positive and uncrossed; every slot counted once; ids unique in each book. */
  ghost predicate Healthy(st: State, clock: nat, capacity: nat) {
    forall c {:trigger SignOk(c, st, clock, capacity)} :: SignOk(c, st, clock, capacity)
  }

  lemma {:induction false} OpenHealth(st: State, clock: nat, capacity: nat)
    requires Healthy(st, clock, capacity)
    ensures StateOk(st, clock) && SlotsAccounted(st, capacity) && StateDistinct(st)
  {
    assert SignOk(BooksSign, st, clock, capacity) && SignOk(SlotsSign, st, clock, capacity);
    assert SignOk(IdsSign, st, clock, capacity);
  }

  // ------------------------------------------------------------------- start

  ghost predicate AllEmpty(st: State) {
    && st.books.Keys == st.grids.Keys
    && (forall k :: k in st.grids ==> st.grids[k].WellFormed())
    && (forall k :: k in st.books ==> st.books[k] == Book([], []))
  }

  lemma {:induction false} NoneLive(books: map<nat, Book>)
    requires forall k :: k in books ==> books[k] == Book([], [])
    ensures LiveTotal(books) == 0
    decreases |books|
  {
    if books != map[] {
      var k :| k in books;
      OverPick(Live, books, k);
      NoneLive(books - {k});
    }
  }

  /** A state of empty books with every slot free, at any time: healthy, and on the side of
      every choice of buyers. */
  lemma {:induction false} EmptyIsHealthy(st: State, clock: nat, capacity: nat)
    requires AllEmpty(st) && st.free == capacity && st.leaked == 0
    ensures Healthy(st, clock, capacity)
    ensures forall buyers :: StateSides(buyers, st)
  {
    NoneLive(st.books);
    assert StateOk(st, clock) && StateDistinct(st);
  }

  lemma {:induction false} NewBookLive(books: map<nat, Book>, id: nat)
    requires id !in books
    ensures LiveTotal(books[id := Book([], [])]) == LiveTotal(books)
  {
    var grown := books[id := Book([], [])];
    OverPick(Live, grown, id);
    assert grown - {id} == books;
  }

  lemma {:induction false} GrownIsHealthy(st: State, clock: nat, capacity: nat, id: nat, g: Grid)
    requires Healthy(st, clock, capacity) && id !in st.books && g.WellFormed()
    ensures Healthy(WithInstrument(st, id, g), clock, capacity)
    ensures forall buyers :: StateSides(buyers, st) ==> StateSides(buyers, WithInstrument(st, id, g))
  {
    OpenHealth(st, clock, capacity);
    var st' := WithInstrument(st, id, g);
    NewBookLive(st.books, id);
    forall k | k in st'.books
      ensures BookOk(st'.grids[k], st'.books[k], clock) && IdsDistinct(st'.books[k])
    {
      assert k != id ==> BookOk(st.grids[k], st.books[k], clock) && IdsDistinct(st.books[k]);
    }
    assert StateOk(st', clock) && StateDistinct(st') && SlotsAccounted(st', capacity);
  }

  // ----------------------------------------------------------------- messages

  lemma {:induction false} StepIsHealthy(st: State, clock: nat, capacity: nat, m: Msg, now: nat)
    requires Healthy(st, clock, capacity) && clock <= now && Admissible(st, m)
    ensures Healthy(Step(st, m, now).state, now, capacity)
  {
    OpenHealth(st, clock, capacity);
    LaterIsOk(st, clock, now);
    StepKeepsOk(st, m, now);
    StepAccountsSlots(st, m, now, capacity);
    StepKeepsDistinct(st, m, now);
  }

  /** Every admissible run from a healthy state ends in one. */
  lemma {:induction false} RunIsHealthy(st: State, clock: nat, capacity: nat, ms: seq<Stamped>)
    requires Healthy(st, clock, capacity) && Monotone(clock, ms) && AdmissibleRun(st, ms)
    ensures Healthy(Run(st, ms).state, ClockAfter(clock, ms), capacity)
  {
    OpenHealth(st, clock, capacity);
    RunKeepsOk(st, clock, ms);
    RunAccountsSlots(st, ms, capacity);
    RunKeepsDistinct(st, ms);
  }
}
