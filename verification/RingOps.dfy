/** The queue's operations as uninterrupted stretches of the ring's steps.  What a method does to
    its side of the ring is what its steps do, so the safety of all interleavings is the code's. */
module RingOps {
  import opened Types
  import opened Folding
  import opened Words
  import opened RingSteps
  import opened SpscQueues

  lemma {:induction false} RunAppend<T>(q: Ring<T>, a: seq<Action<T>>, b: seq<Action<T>>)
    requires q.Shaped()
    ensures Run(q, a + b) == Run(Run(q, a), b)
  {
    StepsAppend(Step, q, a, b);
  }

  lemma {:induction false} RunOne<T>(q: Ring<T>, a: Action<T>)
    requires q.Shaped()
    ensures Run(q, [a]) == Step(q, a)
  {
    assert [a][..0] == [];
    assert Run(q, [a][..0]) == q;
  }

  lemma {:induction false} RunNone<T>(q: Ring<T>)
    requires q.Shaped()
    ensures Run(q, []) == q
  {
  }

  function Repeat<T>(a: Action<T>, n: nat): (s: seq<Action<T>>)
    ensures |s| == n
  {
    if n == 0 then [] else Repeat(a, n - 1) + [a]
  }

  // --------------------------------------------------------------------- push

  /** The steps after the load: `n` slots, and a store when there is something to publish. */
  function PushSteps<T>(load: Action<T>, n: nat): seq<Action<T>> {
    [load] + Repeat(WriteSlot, n) + if n > 0 then [PublishWrite] else []
  }

  /** `i` of the items written. */
  lemma {:induction false} WritesDone<T>(q: Ring<T>, items: seq<T>, i: nat)
    requires q.Shaped() && items != [] && q.producer == Writing(items, 0) && i <= |items|
    ensures Run(q, Repeat(WriteSlot, i))
         == q.(buf := Filled(q.buf, q.k, q.WriteIdx(), items, i), producer := Writing(items, i))
  {
    if i > 0 {
      WritesDone(q, items, i - 1);
      RunAppend(q, Repeat(WriteSlot, i - 1), [WriteSlot]);
      RunOne(Run(q, Repeat(WriteSlot, i - 1)), WriteSlot);
    } else {
      RunNone(q);
    }
  }

  /** The ring after a push of `items` against store `at` of the read index. */
  function AfterPush<T>(q: Ring<T>, at: nat, items: seq<T>): Ring<T>
    requires q.Shaped()
  {
    if items == [] then q.(seenRead := at)
    else q.(seenRead := at, buf := Filled(q.buf, q.k, q.WriteIdx(), items, |items|),
            writeIdx := q.writeIdx + [Add64(q.WriteIdx(), |items|)], pushed := q.pushed + items)
  }

  /** Loading, writing and publishing items that fit. */
  lemma {:induction false} PushRun<T>(q: Ring<T>, load: Action<T>, at: nat, items: seq<T>)
    requires q.Shaped() && Step(q, load) == q.(seenRead := at, producer := Start(items)) && q.producer.Quiet?
    ensures Run(q, PushSteps(load, |items|)) == AfterPush(q, at, items)
  {
    if items == [] {
      RunOne(q, load);
      assert PushSteps(load, 0) == [load];
    } else {
      PushRunSome(q, load, at, items);
    }
  }

  lemma {:induction false} PushRunSome<T>(q: Ring<T>, load: Action<T>, at: nat, items: seq<T>)
    requires q.Shaped() && Step(q, load) == q.(seenRead := at, producer := Writing(items, 0)) && q.producer.Quiet? && items != []
    ensures Run(q, [load] + Repeat(WriteSlot, |items|) + [PublishWrite]) == AfterPush(q, at, items)
  {
    ThreeParts(q, load, Repeat(WriteSlot, |items|), PublishWrite);
    WritesPublished(Step(q, load), items);
  }

  lemma {:induction false} WritesPublished<T>(q: Ring<T>, items: seq<T>)
    requires q.Shaped() && items != [] && q.producer == Writing(items, 0)
    ensures Step(Run(q, Repeat(WriteSlot, |items|)), PublishWrite)
         == q.(buf := Filled(q.buf, q.k, q.WriteIdx(), items, |items|), producer := Quiet,
               writeIdx := q.writeIdx + [Add64(q.WriteIdx(), |items|)], pushed := q.pushed + items)
  {
    WritesDone(q, items, |items|);
  }

  lemma {:induction false} ThreeParts<T>(q: Ring<T>, first: Action<T>, middle: seq<Action<T>>, last: Action<T>)
    requires q.Shaped()
    ensures Run(q, [first] + middle + [last]) == Step(Run(Step(q, first), middle), last)
  {
    RunOne(q, first);
    RunAppend(q, [first], middle);
    RunAppend(q, [first] + middle, [last]);
    RunOne(Run(q, [first] + middle), last);
  }

  lemma {:induction false} FilledAlike<T>(buf: seq<T>, k: nat, idx: Word, a: seq<T>, b: seq<T>, n: nat)
    requires |buf| == Pow2(k) && n <= |a| && n <= |b| && a[..n] == b[..n]
    ensures Filled(buf, k, idx, a, n) == Filled(buf, k, idx, b, n)
  {
    if n > 0 {
      assert a[n - 1] == a[..n][n - 1] && b[n - 1] == b[..n][n - 1];
      assert a[..n - 1] == a[..n][..n - 1] && b[..n - 1] == b[..n][..n - 1];
      FilledAlike(buf, k, idx, a, b, n - 1);
    }
  }

  /** The producer's half of the ring. */
  function WriterOf<T>(q: Ring<T>): Writer<T>
    requires q.Shaped()
  {
    Writer(q.buf, q.WriteIdx())
  }

  function ReaderOf<T>(q: Ring<T>): Reader<T>
    requires q.Shaped()
  {
    Reader(q.buf, q.ReadIdx())
  }

  /** The consumer's side is as it was. */
  ghost predicate ConsumerSame<T>(q: Ring<T>, q': Ring<T>) {
    q'.readIdx == q.readIdx && q'.seenWrite == q.seenWrite && q'.consumer == q.consumer && q'.popped == q.popped
  }

  ghost predicate ProducerSame<T>(q: Ring<T>, q': Ring<T>) {
    && q'.writeIdx == q.writeIdx && q'.seenRead == q.seenRead && q'.producer == q.producer && q'.pushed == q.pushed
    && q'.buf == q.buf
  }

  /** `TryPushBatch` is load, write the slots, publish. */
  lemma {:induction false} PushBatchIsSteps<T>(q: Ring<T>, items: seq<T>, at: nat)
    requires q.Shaped() && q.producer.Quiet? && q.seenRead <= at < |q.readIdx|
    ensures var n := Min(RoomForMany(q, q.readIdx[at]), |items|);
      var q' := Run(q, PushSteps(LoadPushBatch(items, at), n));
      && WriterOf(q') == PushBatch(WriterOf(q), q.k, items, q.readIdx[at])
      && q'.pushed == q.pushed + items[..n] && q'.producer.Quiet? && ConsumerSame(q, q')
  {
    var n := Min(RoomForMany(q, q.readIdx[at]), |items|);
    PushRun(q, LoadPushBatch(items, at), at, items[..n]);
    FilledAlike(q.buf, q.k, q.WriteIdx(), items[..n], items, n);
  }

  /** `TryPush` is load, write one slot, publish; or only the load, when the ring looks full. */
  lemma {:induction false} PushIsSteps<T>(q: Ring<T>, item: T, at: nat)
    requires q.Shaped() && q.producer.Quiet? && q.seenRead <= at < |q.readIdx|
    ensures var n := RoomForOne(q, q.readIdx[at]);
      var q' := Run(q, PushSteps(LoadPush(item, at), n));
      && WriterOf(q') == PushOne(WriterOf(q), q.k, item, q.readIdx[at])
      && q'.pushed == q.pushed + [item][..n] && q'.producer.Quiet? && ConsumerSame(q, q')
  {
    var n := RoomForOne(q, q.readIdx[at]);
    PushRun(q, LoadPush(item, at), at, [item][..n]);
    AddNothing(q.WriteIdx());
    FilledAlike(q.buf, q.k, q.WriteIdx(), [item][..n], [item], n);
  }

  // ---------------------------------------------------------------------- pop

  function PopSteps<T>(load: Action<T>, n: nat): seq<Action<T>> {
    [load] + Repeat(ReadSlot, n) + if n > 0 then [PublishRead] else []
  }

  lemma {:induction false} ReadsDone<T>(q: Ring<T>, n: nat, i: nat)
    requires q.Shaped() && n > 0 && q.consumer == Reading(n, []) && i <= n
    ensures Run(q, Repeat(ReadSlot, i)) == q.(consumer := Reading(n, ReadOut(q.buf, q.k, q.ReadIdx(), i)))
  {
    if i > 0 {
      ReadsDone(q, n, i - 1);
      RunAppend(q, Repeat(ReadSlot, i - 1), [ReadSlot]);
      RunOne(Run(q, Repeat(ReadSlot, i - 1)), ReadSlot);
    } else {
      RunNone(q);
    }
  }

  /** The ring after a pop of `n` items against store `at` of the write index. */
  function AfterPop<T>(q: Ring<T>, at: nat, n: nat): Ring<T>
    requires q.Shaped()
  {
    if n == 0 then q.(seenWrite := at)
    else q.(seenWrite := at, readIdx := q.readIdx + [Add64(q.ReadIdx(), n)],
            popped := q.popped + ReadOut(q.buf, q.k, q.ReadIdx(), n))
  }

  lemma {:induction false} PopRun<T>(q: Ring<T>, load: Action<T>, at: nat, n: nat)
    requires q.Shaped() && Step(q, load) == q.(seenWrite := at, consumer := Begin(n)) && q.consumer.Resting?
    ensures Run(q, PopSteps(load, n)) == AfterPop(q, at, n)
  {
    if n == 0 {
      RunOne(q, load);
      assert PopSteps(load, 0) == [load];
    } else {
      PopRunSome(q, load, at, n);
    }
  }

  lemma {:induction false} PopRunSome<T>(q: Ring<T>, load: Action<T>, at: nat, n: nat)
    requires q.Shaped() && Step(q, load) == q.(seenWrite := at, consumer := Reading(n, [])) && q.consumer.Resting? && n > 0
    ensures Run(q, [load] + Repeat(ReadSlot, n) + [PublishRead]) == AfterPop(q, at, n)
  {
    ThreeParts(q, load, Repeat(ReadSlot, n), PublishRead);
    ReadsPublished(Step(q, load), n);
  }

  lemma {:induction false} ReadsPublished<T>(q: Ring<T>, n: nat)
    requires q.Shaped() && n > 0 && q.consumer == Reading(n, [])
    ensures Step(Run(q, Repeat(ReadSlot, n)), PublishRead)
         == q.(consumer := Resting, readIdx := q.readIdx + [Add64(q.ReadIdx(), n)],
               popped := q.popped + ReadOut(q.buf, q.k, q.ReadIdx(), n))
  {
    ReadsDone(q, n, n);
  }

  /** `TryPopBatch` is load, read the slots, publish. */
  lemma {:induction false} PopBatchIsSteps<T>(q: Ring<T>, max: nat, at: nat)
    requires q.Shaped() && q.consumer.Resting? && q.seenWrite <= at < |q.writeIdx|
    ensures var n := Min(max, Sub64(q.writeIdx[at], q.ReadIdx()));
      var q' := Run(q, PopSteps(LoadPopBatch(max, at), n));
      && (ReaderOf(q'), ReadOut(q.buf, q.k, q.ReadIdx(), n)) == PopBatch(ReaderOf(q), q.k, max, q.writeIdx[at])
      && q'.popped == q.popped + ReadOut(q.buf, q.k, q.ReadIdx(), n) && q'.consumer.Resting? && ProducerSame(q, q')
  {
    PopRun(q, LoadPopBatch(max, at), at, Min(max, Sub64(q.writeIdx[at], q.ReadIdx())));
  }

  /** `TryPop` is load, read one slot, publish; or only the load, when the ring looks empty. */
  lemma {:induction false} PopIsSteps<T>(q: Ring<T>, at: nat)
    requires q.Shaped() && q.consumer.Resting? && q.seenWrite <= at < |q.writeIdx|
    ensures var n := if q.ReadIdx() == q.writeIdx[at] then 0 else 1;
      var q' := Run(q, PopSteps(LoadPop(at), n));
      && (ReaderOf(q'), q'.popped) == PopOne((ReaderOf(q), q.popped), q.k, q.writeIdx[at])
      && q'.consumer.Resting? && ProducerSame(q, q')
  {
    var n := if q.ReadIdx() == q.writeIdx[at] then 0 else 1;
    PopRun(q, LoadPop(at), at, n);
    AddNothing(q.ReadIdx());
    var read := ReadOut(q.buf, q.k, q.ReadIdx(), n);
    assert read == if n == 0 then [] else [q.buf[SlotOf(q.ReadIdx(), q.k)]];
    assert n == 0 ==> q.popped + read == q.popped;
  }
}
