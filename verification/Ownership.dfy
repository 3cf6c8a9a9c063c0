/** Who owns each slot of the pool: the freelist, one book, or nobody any more. */
module Ownership {
  import opened Types
  import opened Folding
  import opened Reference
  import opened PriceLevels
  import opened OrderPools
  import opened Halves
  import opened Books

  /** The clauses of slot ownership. */
  // The clauses are named one by one so that the solver unfolds only those a proof asks for.
  datatype Title = FreeTitle | BooksTitle | ClearTitle | LeakTitle | CoverTitle

  ghost predicate TitleOk(c: Title, mem: Mem, free: seq<int>, vals: map<nat, BookVal>, leaked: set<int>) {
    match c
    case FreeTitle => IsFreelist(mem, free)
    case BooksTitle => BooksSound(mem, vals)
    case ClearTitle => BooksClear(free, vals, leaked)
    case LeakTitle => forall x :: x in leaked ==> 0 <= x < |mem| && x !in free
    case CoverTitle => AllCovered(mem, free, vals, leaked)
  }

  /** Every slot is free, leaked, or queued in the book of its own instrument, and never two of these. */
  ghost predicate Owned(mem: Mem, free: seq<int>, vals: map<nat, BookVal>, leaked: set<int>) {
    forall c {:trigger TitleOk(c, mem, free, vals, leaked)} :: TitleOk(c, mem, free, vals, leaked)
  }

  lemma {:induction false} OpenOwned(mem: Mem, free: seq<int>, vals: map<nat, BookVal>, leaked: set<int>)
    requires Owned(mem, free, vals, leaked)
    ensures IsFreelist(mem, free) && BooksSound(mem, vals) && BooksClear(free, vals, leaked)
    ensures forall x :: x in leaked ==> 0 <= x < |mem| && x !in free
    ensures AllCovered(mem, free, vals, leaked)
  {
    assert TitleOk(FreeTitle, mem, free, vals, leaked) && TitleOk(BooksTitle, mem, free, vals, leaked);
    assert TitleOk(ClearTitle, mem, free, vals, leaked) && TitleOk(LeakTitle, mem, free, vals, leaked);
    assert TitleOk(CoverTitle, mem, free, vals, leaked);
  }

  ghost predicate BooksSound(mem: Mem, vals: map<nat, BookVal>) {
    forall k :: k in vals ==> BookOk(vals[k], mem) && vals[k].inst == k
  }

  /** What a book holds is neither free nor leaked. */
  ghost predicate BooksClear(free: seq<int>, vals: map<nat, BookVal>, leaked: set<int>) {
    forall k, x :: k in vals && Holds(vals[k], x) ==> x !in free && x !in leaked
  }

  ghost predicate AllCovered(mem: Mem, free: seq<int>, vals: map<nat, BookVal>, leaked: set<int>) {
    forall x :: 0 <= x < |mem| ==> x in free || x in leaked || InItsBook(mem, vals, x)
  }

  ghost predicate InItsBook(mem: Mem, vals: map<nat, BookVal>, x: int)
    requires 0 <= x < |mem|
  {
    mem[x].instrumentId in vals && Holds(vals[mem[x].instrumentId], x)
  }

  /** No slot is in two books. */
  lemma {:induction false} OneBook(mem: Mem, vals: map<nat, BookVal>, j: nat, k: nat, x: int)
    requires j in vals && k in vals && BookOk(vals[j], mem) && BookOk(vals[k], mem)
    requires vals[j].inst == j && vals[k].inst == k
    requires Holds(vals[j], x) && Holds(vals[k], x)
    ensures j == k
  {
    HeldWhere(vals[j], mem, x);
    HeldWhere(vals[k], mem, x);
  }

  // --------------------------------------------------- one book and the pool

  /** The freelist and one book are sound and share no slot. */
  ghost predicate Apart(mem: Mem, free: seq<int>, v: BookVal) {
    IsFreelist(mem, free) && BookOk(v, mem) && forall x :: Holds(v, x) ==> x !in free
  }

  /** Slot `a` is in nobody's hands but the engine's. */
  ghost predicate InHand(mem: Mem, free: seq<int>, v: BookVal, a: int) {
    0 <= a < |mem| && a !in free && !Holds(v, a)
  }

  /** Slots moved between the freelist and the book, none was lost or invented. */
  ghost predicate Conserved(free: seq<int>, v: BookVal, free': seq<int>, v': BookVal) {
    forall x :: (x in free' || Holds(v', x)) <==> (x in free || Holds(v, x))
  }

  /** The facets of a step that touches one book. */
  // The clauses are named one by one so that the solver unfolds only those a proof asks for.
  datatype Locality = SoundApart | LeaksApart | SlotsKept | LeaksGrow | ElsewhereKept

  ghost predicate LocalFacet(
      f: Locality, mem: Mem, free: seq<int>, v: BookVal, leaked: set<int>,
      mem': Mem, free': seq<int>, v': BookVal, leaked': set<int>)
  {
    && |mem'| == |mem|
    && match f
       case SoundApart => Apart(mem', free', v') && v'.inst == v.inst
       case LeaksApart =>
         && (forall x :: Holds(v', x) ==> x !in leaked')
         && (forall x :: x in leaked' ==> 0 <= x < |mem| && x !in free')
       case SlotsKept => forall x :: (x in free' || x in leaked' || Holds(v', x)) <==> (x in free || x in leaked || Holds(v, x))
       case LeaksGrow => leaked <= leaked'
       case ElsewhereKept => forall x :: 0 <= x < |mem| && x !in free && !Holds(v, x) ==> mem'[x] == mem[x]
  }

  /** Everything a message may change: one book, the freelist, and the leaked slots.  No slot
      is lost or owned twice, and slots of anyone else are not written. */
  ghost predicate LocalStep(
      mem: Mem, free: seq<int>, v: BookVal, leaked: set<int>,
      mem': Mem, free': seq<int>, v': BookVal, leaked': set<int>)
  {
    forall f {:trigger LocalFacet(f, mem, free, v, leaked, mem', free', v', leaked')} ::
      LocalFacet(f, mem, free, v, leaked, mem', free', v', leaked')
  }

  lemma {:induction false} OpenLocal(
      mem: Mem, free: seq<int>, v: BookVal, leaked: set<int>,
      mem': Mem, free': seq<int>, v': BookVal, leaked': set<int>)
    requires LocalStep(mem, free, v, leaked, mem', free', v', leaked')
    ensures Apart(mem', free', v') && v'.inst == v.inst && |mem'| == |mem|
    ensures forall x :: Holds(v', x) ==> x !in leaked'
    ensures forall x :: x in leaked' ==> 0 <= x < |mem| && x !in free'
    ensures forall x :: (x in free' || x in leaked' || Holds(v', x)) <==> (x in free || x in leaked || Holds(v, x))
    ensures leaked <= leaked'
    ensures forall x :: 0 <= x < |mem| && x !in free && !Holds(v, x) ==> mem'[x] == mem[x]
  {
    assert LocalFacet(SoundApart, mem, free, v, leaked, mem', free', v', leaked');
    assert LocalFacet(LeaksApart, mem, free, v, leaked, mem', free', v', leaked');
    assert LocalFacet(SlotsKept, mem, free, v, leaked, mem', free', v', leaked');
    assert LocalFacet(LeaksGrow, mem, free, v, leaked, mem', free', v', leaked');
    assert LocalFacet(ElsewhereKept, mem, free, v, leaked, mem', free', v', leaked');
  }

  /** Books of other instruments do not notice. */
  lemma {:induction false} OthersUnmoved(
      mem: Mem, free: seq<int>, vals: map<nat, BookVal>, leaked: set<int>, k: nat,
      mem': Mem, free': seq<int>, v': BookVal, leaked': set<int>, j: nat)
    requires Owned(mem, free, vals, leaked) && k in vals && j in vals && j != k
    requires LocalStep(mem, free, vals[k], leaked, mem', free', v', leaked')
    ensures |mem'| == |mem|
    ensures BookOk(vals[j], mem') && ViewOf(vals[j], mem') == ViewOf(vals[j], mem)
    ensures forall x :: Holds(vals[j], x) ==> 0 <= x < |mem| && mem'[x] == mem[x] && x !in free' && x !in leaked' && !Holds(v', x)
  {
    OpenOwned(mem, free, vals, leaked);
    OpenLocal(mem, free, vals[k], leaked, mem', free', v', leaked');
    forall x | Holds(vals[j], x)
      ensures 0 <= x < |mem| && mem'[x] == mem[x] && x !in free' && x !in leaked' && !Holds(v', x)
    {
      HeldWhere(vals[j], mem, x);
      if Holds(vals[k], x) { OneBook(mem, vals, j, k, x); }
    }
    BookFrame(vals[j], mem, mem');
  }

  /** A local step keeps the whole pool partitioned. */
  lemma {:induction false} OwnedStep(
      mem: Mem, free: seq<int>, vals: map<nat, BookVal>, leaked: set<int>, k: nat,
      mem': Mem, free': seq<int>, v': BookVal, leaked': set<int>)
    requires Owned(mem, free, vals, leaked) && k in vals
    requires LocalStep(mem, free, vals[k], leaked, mem', free', v', leaked')
    ensures Owned(mem', free', vals[k := v'], leaked')
    ensures forall j :: j in vals && j != k ==> ViewOf(vals[j], mem') == ViewOf(vals[j], mem)
  {
    OpenOwned(mem, free, vals, leaked);
    OpenLocal(mem, free, vals[k], leaked, mem', free', v', leaked');
    BooksStep(mem, free, vals, leaked, k, mem', free', v', leaked');
    ClearStep(mem, free, vals, leaked, k, mem', free', v', leaked');
    forall x | 0 <= x < |mem'|
      ensures x in free' || x in leaked' || InItsBook(mem', vals[k := v'], x)
    {
      Covered(mem, free, vals, leaked, k, mem', free', v', leaked', x);
    }
  }

  lemma {:induction false} BooksStep(
      mem: Mem, free: seq<int>, vals: map<nat, BookVal>, leaked: set<int>, k: nat,
      mem': Mem, free': seq<int>, v': BookVal, leaked': set<int>)
    requires Owned(mem, free, vals, leaked) && k in vals
    requires LocalStep(mem, free, vals[k], leaked, mem', free', v', leaked')
    ensures BooksSound(mem', vals[k := v'])
    ensures forall j :: j in vals && j != k ==> ViewOf(vals[j], mem') == ViewOf(vals[j], mem)
  {
    OpenOwned(mem, free, vals, leaked);
    OpenLocal(mem, free, vals[k], leaked, mem', free', v', leaked');
    forall j | j in vals && j != k
      ensures BookOk(vals[j], mem') && ViewOf(vals[j], mem') == ViewOf(vals[j], mem)
    {
      OthersUnmoved(mem, free, vals, leaked, k, mem', free', v', leaked', j);
    }
  }

  lemma {:induction false} ClearStep(
      mem: Mem, free: seq<int>, vals: map<nat, BookVal>, leaked: set<int>, k: nat,
      mem': Mem, free': seq<int>, v': BookVal, leaked': set<int>)
    requires Owned(mem, free, vals, leaked) && k in vals
    requires LocalStep(mem, free, vals[k], leaked, mem', free', v', leaked')
    ensures BooksClear(free', vals[k := v'], leaked')
  {
    OpenOwned(mem, free, vals, leaked);
    OpenLocal(mem, free, vals[k], leaked, mem', free', v', leaked');
    var vals' := vals[k := v'];
    forall j, x | j in vals' && Holds(vals'[j], x)
      ensures x !in free' && x !in leaked'
    {
      if j != k {
        OthersUnmoved(mem, free, vals, leaked, k, mem', free', v', leaked', j);
      }
    }
  }

  lemma {:induction false} Covered(
      mem: Mem, free: seq<int>, vals: map<nat, BookVal>, leaked: set<int>, k: nat,
      mem': Mem, free': seq<int>, v': BookVal, leaked': set<int>, x: int)
    requires Owned(mem, free, vals, leaked) && k in vals
    requires LocalStep(mem, free, vals[k], leaked, mem', free', v', leaked')
    requires 0 <= x < |mem'|
    ensures x in free' || x in leaked' || InItsBook(mem', vals[k := v'], x)
  {
    OpenOwned(mem, free, vals, leaked);
    OpenLocal(mem, free, vals[k], leaked, mem', free', v', leaked');
    if x in free || x in leaked || Holds(vals[k], x) {
      if Holds(v', x) { HeldWhere(v', mem', x); }
    } else {
      var j := mem[x].instrumentId;
      assert j in vals && Holds(vals[j], x) && j != k;
    }
  }

  /** The reference books the whole map stands for. */
  ghost function ViewAll(vals: map<nat, BookVal>, mem: Mem): map<nat, Book> {
    Mapped((v: BookVal) => ViewOf(v, mem), vals)
  }

  lemma {:induction false} ViewAllStep(vals: map<nat, BookVal>, mem: Mem, k: nat, v': BookVal, mem': Mem)
    requires k in vals
    requires forall j :: j in vals && j != k ==> ViewOf(vals[j], mem') == ViewOf(vals[j], mem)
    ensures ViewAll(vals[k := v'], mem') == ViewAll(vals, mem)[k := ViewOf(v', mem')]
  {
  }

  // ------------------------------------------------------------ primitive moves

  /** Handing slot `o` from the book to the freelist. */
  lemma {:induction false} ReleasedFromBook(mem: Mem, free: seq<int>, v: BookVal, mem1: Mem, v1: BookVal, o: int, mem2: Mem)
    requires Apart(mem, free, v) && Holds(v, o)
    requires BookOk(v1, mem1) && Loses(v, v1, o) && Untouched(v, o, mem, mem1)
    requires 0 <= o < |mem1| && mem2 == mem1[o := mem1[o].(next := First(free), prev := NIL)]
    ensures o !in free && IsFreelist(mem1, free)
    ensures Apart(mem2, [o] + free, v1) && ViewOf(v1, mem2) == ViewOf(v1, mem1)
    ensures Conserved(free, v, [o] + free, v1)
  {
    FreelistFrame(mem, mem1, free);
    PushFree(mem1, mem2, free, o);
    BookFrame(v1, mem1, mem2);
  }

  /** A partial fill moves no slot. */
  lemma {:induction false} StillApart(mem: Mem, free: seq<int>, v: BookVal, mem1: Mem, v1: BookVal, o: int)
    requires Apart(mem, free, v) && Holds(v, o)
    requires BookOk(v1, mem1) && HoldsSame(v, v1) && Untouched(v, o, mem, mem1)
    ensures Apart(mem1, free, v1)
    ensures Conserved(free, v, free, v1)
  {
    FreelistFrame(mem, mem1, free);
  }

  /** Writing to a slot in hand disturbs neither the freelist nor the book. */
  lemma {:induction false} WriteInHand(mem: Mem, free: seq<int>, v: BookVal, a: int, mem1: Mem)
    requires Apart(mem, free, v) && InHand(mem, free, v, a)
    requires |mem1| == |mem| && mem1 == mem[a := mem1[a]]
    ensures Apart(mem1, free, v) && InHand(mem1, free, v, a)
    ensures ViewOf(v, mem1) == ViewOf(v, mem)
  {
    FreelistFrame(mem, mem1, free);
    BookFrame(v, mem, mem1);
  }
}
