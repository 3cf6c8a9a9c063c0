/** The single-producer single-consumer ring as two threads whose steps interleave freely.
    Each operation is split into the load of the other side's index, its slot accesses one by
    one, and the publishing store.  An index is the list of values ever stored to it; a load
    may return any of them that is not older than what the same thread saw before. */
module RingSteps {
  import opened Types
  import opened Folding
  import opened Words

  datatype Producer<T> = Quiet | Writing(items: seq<T>, i: nat)

  datatype Consumer<T> = Resting | Reading(n: nat, got: seq<T>)

  /** `writeIdx` and `readIdx` are the stores to `write_idx_` and `read_idx_`; `seenRead` and
      `seenWrite` say which of them the other side loaded last.  `pushed` and `popped` are
      what completed operations took in and handed out. */
  datatype Ring<T> = Ring(
    k: nat, buf: seq<T>,
    writeIdx: seq<Word>, seenWrite: nat,
    readIdx: seq<Word>, seenRead: nat,
    producer: Producer<T>, consumer: Consumer<T>,
    pushed: seq<T>, popped: seq<T>)
  {
    predicate Shaped() {
      k < 64 && |buf| == Pow2(k) && writeIdx != [] && readIdx != []
    }

    function WriteIdx(): Word requires writeIdx != [] { writeIdx[|writeIdx| - 1] }

    function ReadIdx(): Word requires readIdx != [] { readIdx[|readIdx| - 1] }

    /** What lies between the two indices. */
    function Contents(): seq<T>
      requires Shaped()
    {
      seq(Sub64(WriteIdx(), ReadIdx()), i requires 0 <= i => buf[SlotOf(Add64(ReadIdx(), i), k)])
    }
  }

  datatype Action<T> =
    | LoadPush(item: T, at: nat)
    | LoadPushBatch(items: seq<T>, at: nat)
    | WriteSlot
    | PublishWrite
    | LoadPop(at: nat)
    | LoadPopBatch(max: nat, at: nat)
    | ReadSlot
    | PublishRead

  function Start<T>(items: seq<T>): Producer<T> {
    if items == [] then Quiet else Writing(items, 0)
  }

  function Begin<T>(n: nat): Consumer<T> {
    if n == 0 then Resting else Reading(n, [])
  }

  /** `try_push` has room against the loaded read index. */
  function RoomForOne(q: Ring, seen: Word): nat
    requires q.Shaped()
  {
    if Sub64(q.WriteIdx(), seen) == Pow2(q.k) then 0 else 1
  }

  /** `try_push_batch`: N - (w - r), on words. */
  function RoomForMany(q: Ring, seen: Word): Word
    requires q.Shaped()
  {
    Sub64(Pow2(q.k), Sub64(q.WriteIdx(), seen))
  }

  function FirstOf<T>(s: seq<T>, n: nat): seq<T> {
    s[..Min(n, |s|)]
  }

  /** One step of either thread; a step that is not possible changes nothing. */
  function Step<T>(q: Ring<T>, a: Action<T>): (q': Ring<T>)
    ensures q.Shaped() ==> q'.Shaped() && q'.k == q.k
  {
    if !q.Shaped() then q else
    match a
    case LoadPush(item, at) =>
      if q.producer.Quiet? && q.seenRead <= at < |q.readIdx|
      then q.(seenRead := at, producer := Start(FirstOf([item], RoomForOne(q, q.readIdx[at]))))
      else q
    case LoadPushBatch(items, at) =>
      if q.producer.Quiet? && q.seenRead <= at < |q.readIdx|
      then q.(seenRead := at, producer := Start(FirstOf(items, RoomForMany(q, q.readIdx[at]))))
      else q
    case WriteSlot =>
      if q.producer.Writing? && q.producer.i < |q.producer.items|
      then q.(buf := q.buf[SlotOf(Add64(q.WriteIdx(), q.producer.i), q.k) := q.producer.items[q.producer.i]],
              producer := q.producer.(i := q.producer.i + 1))
      else q
    case PublishWrite =>
      if q.producer.Writing? && q.producer.i == |q.producer.items|
      then q.(writeIdx := q.writeIdx + [Add64(q.WriteIdx(), |q.producer.items|)],
              producer := Quiet, pushed := q.pushed + q.producer.items)
      else q
    case LoadPop(at) =>
      if q.consumer.Resting? && q.seenWrite <= at < |q.writeIdx|
      then q.(seenWrite := at, consumer := Begin(if q.ReadIdx() == q.writeIdx[at] then 0 else 1))
      else q
    case LoadPopBatch(max, at) =>
      if q.consumer.Resting? && q.seenWrite <= at < |q.writeIdx|
      then q.(seenWrite := at, consumer := Begin(Min(max, Sub64(q.writeIdx[at], q.ReadIdx()))))
      else q
    case ReadSlot =>
      if q.consumer.Reading? && |q.consumer.got| < q.consumer.n
      then q.(consumer := Reading(q.consumer.n,
                q.consumer.got + [q.buf[SlotOf(Add64(q.ReadIdx(), |q.consumer.got|), q.k)]]))
      else q
    case PublishRead =>
      if q.consumer.Reading? && |q.consumer.got| == q.consumer.n
      then q.(readIdx := q.readIdx + [Add64(q.ReadIdx(), q.consumer.n)],
              consumer := Resting, popped := q.popped + q.consumer.got)
      else q
  }

  function Run<T>(q: Ring<T>, actions: seq<Action<T>>): (q': Ring<T>)
    requires q.Shaped()
    ensures q'.Shaped() && q'.k == q.k
  {
    StepsKeepShape(q, actions);
    Steps(Step, q, actions)
  }

  lemma {:induction false} StepsKeepShape<T>(q: Ring<T>, actions: seq<Action<T>>)
    requires q.Shaped()
    ensures var q' := Steps(Step, q, actions); q'.Shaped() && q'.k == q.k
  {
    if actions != [] { StepsKeepShape(q, actions[..|actions| - 1]); }
  }

  function Empty<T>(k: nat, buf: seq<T>): (q: Ring<T>)
    requires k < 64 && |buf| == Pow2(k)
    ensures q.Shaped()
  {
    Ring(k, buf, [0], 0, [0], 0, Quiet, Resting, [], [])
  }

  // ------------------------------------------------------------ the invariant

  /** The stored words are the counters `counts`, wrapped; the counters never fall. */
  ghost predicate Counted(stores: seq<Word>, counts: seq<nat>, now: nat) {
    && |counts| == |stores| > 0
    && counts[|counts| - 1] == now
    && (forall j :: 0 <= j < |stores| ==> stores[j] == Wrap(counts[j]))
    && (forall i, j :: 0 <= i <= j < |counts| ==> counts[i] <= counts[j])
  }

  /** Unread items lie in the slots of their positions. */
  ghost predicate Stored<T>(q: Ring<T>)
    requires q.Shaped()
  {
    forall p :: |q.popped| <= p < |q.pushed| ==> q.buf[p % Pow2(q.k)] == q.pushed[p]
  }

  ghost predicate ProducerOk<T>(q: Ring<T>, seen: nat)
    requires q.Shaped()
  {
    && |q.pushed| <= seen + Pow2(q.k)
    && (q.producer.Writing? ==>
          && q.producer.i <= |q.producer.items|
          && |q.pushed| + |q.producer.items| <= seen + Pow2(q.k)
          && forall j :: 0 <= j < q.producer.i ==> q.buf[(|q.pushed| + j) % Pow2(q.k)] == q.producer.items[j])
  }

  ghost predicate ConsumerOk<T>(q: Ring<T>, seen: nat) {
    && |q.popped| <= seen <= |q.pushed|
    && (q.consumer.Reading? ==>
          && |q.consumer.got| <= q.consumer.n
          && |q.popped| + q.consumer.n <= seen
          && q.consumer.got == q.pushed[|q.popped|..|q.popped| + |q.consumer.got|])
  }

  /** `wc` and `rc` are the unbounded counters behind the stored words. */
  ghost predicate Explains<T>(q: Ring<T>, wc: seq<nat>, rc: seq<nat>)
    requires q.Shaped()
  {
    && Counted(q.writeIdx, wc, |q.pushed|)
    && Counted(q.readIdx, rc, |q.popped|)
    && q.seenWrite < |wc| && q.seenRead < |rc|
    && |q.popped| <= |q.pushed| && q.popped == q.pushed[..|q.popped|]
    && Stored(q)
    && ProducerOk(q, rc[q.seenRead])
    && ConsumerOk(q, wc[q.seenWrite])
  }

  ghost predicate Sound<T>(q: Ring<T>)
    requires q.Shaped()
  {
    exists wc, rc :: Explains(q, wc, rc)
  }

  lemma {:induction false} CountedGrows(stores: seq<Word>, counts: seq<nat>, now: nat, n: nat)
    requires Counted(stores, counts, now)
    ensures Counted(stores + [Add64(stores[|stores| - 1], n)], counts + [now + n], now + n)
  {
    AddWrapped(now, n);
  }

  lemma {:induction false} LoadForPush<T>(q: Ring<T>, wc: seq<nat>, rc: seq<nat>, at: nat)
    requires q.Shaped() && Explains(q, wc, rc) && q.seenRead <= at < |q.readIdx|
    ensures rc[q.seenRead] <= rc[at] <= |q.popped|
    ensures Sub64(q.WriteIdx(), q.readIdx[at]) == |q.pushed| - rc[at] <= Pow2(q.k)
    ensures RoomForOne(q, q.readIdx[at]) == if |q.pushed| - rc[at] == Pow2(q.k) then 0 else 1
    ensures RoomForMany(q, q.readIdx[at]) == Pow2(q.k) - (|q.pushed| - rc[at])
  {
    RingFits(q.k);
    TestsWrapped(|q.pushed|, rc[at], Pow2(q.k));
    NoBorrow(Pow2(q.k), |q.pushed| - rc[at]);
  }

  lemma {:induction false} LoadForPop<T>(q: Ring<T>, wc: seq<nat>, rc: seq<nat>, at: nat)
    requires q.Shaped() && Explains(q, wc, rc) && q.seenWrite <= at < |q.writeIdx|
    ensures |q.popped| <= wc[q.seenWrite] <= wc[at] <= |q.pushed|
    ensures Sub64(q.writeIdx[at], q.ReadIdx()) == wc[at] - |q.popped|
    ensures q.ReadIdx() == q.writeIdx[at] <==> wc[at] == |q.popped|
  {
    RingFits(q.k);
    TestsWrapped(wc[at], |q.popped|, Pow2(q.k));
  }

  /** The slot about to be written holds no unread item and none already written by this operation. */
  lemma {:induction false} WriteIsSafe<T>(q: Ring<T>, wc: seq<nat>, rc: seq<nat>, p: nat)
    requires q.Shaped() && Explains(q, wc, rc) && q.producer.Writing? && q.producer.i < |q.producer.items|
    requires |q.popped| <= p < |q.pushed| + q.producer.i
    ensures SlotOf(Add64(q.WriteIdx(), q.producer.i), q.k) == (|q.pushed| + q.producer.i) % Pow2(q.k) != p % Pow2(q.k)
  {
    assert rc[q.seenRead] <= |q.popped|;
    SlotAhead(|q.pushed|, q.producer.i, q.k);
    SlotsDiffer(|q.pushed| + q.producer.i, p, Pow2(q.k));
  }

  /** The write leaves every position in use alone, and puts the item in its own. */
  lemma {:induction false} WriteLands<T>(q: Ring<T>, wc: seq<nat>, rc: seq<nat>, p: nat)
    requires q.Shaped() && Explains(q, wc, rc) && q.producer.Writing? && q.producer.i < |q.producer.items|
    requires |q.popped| <= p <= |q.pushed| + q.producer.i
    ensures p % Pow2(q.k) < |q.buf|
    ensures Step(q, WriteSlot).buf[p % Pow2(q.k)]
         == if p == |q.pushed| + q.producer.i then q.producer.items[q.producer.i] else q.buf[p % Pow2(q.k)]
  {
    SlotAhead(|q.pushed|, q.producer.i, q.k);
    if p < |q.pushed| + q.producer.i {
      WriteIsSafe(q, wc, rc, p);
    }
  }

  lemma {:induction false} WriteKeeps<T>(q: Ring<T>, wc: seq<nat>, rc: seq<nat>)
    requires q.Shaped() && Explains(q, wc, rc) && q.producer.Writing? && q.producer.i < |q.producer.items|
    ensures Explains(Step(q, WriteSlot), wc, rc)
  {
    var q' := Step(q, WriteSlot);
    forall p | |q.popped| <= p < |q.pushed|
      ensures q'.buf[p % Pow2(q.k)] == q'.pushed[p]
    {
      WriteLands(q, wc, rc, p);
    }
    forall j | 0 <= j < q'.producer.i
      ensures q'.buf[(|q'.pushed| + j) % Pow2(q.k)] == q'.producer.items[j]
    {
      WriteLands(q, wc, rc, |q.pushed| + j);
    }
    assert ProducerOk(q', rc[q.seenRead]);
  }

  /** The written items are where unread items belong. */
  lemma {:induction false} PublishStores<T>(q: Ring<T>, rc: nat)
    requires q.Shaped() && Stored(q) && ProducerOk(q, rc)
    requires q.producer.Writing? && q.producer.i == |q.producer.items|
    ensures Stored(q.(pushed := q.pushed + q.producer.items))
  {
    var pushed, n := q.pushed + q.producer.items, |q.pushed|;
    forall p | |q.popped| <= p < |pushed|
      ensures q.buf[p % Pow2(q.k)] == pushed[p]
    {
      if p >= n {
        assert q.buf[(n + (p - n)) % Pow2(q.k)] == q.producer.items[p - n];
      }
    }
  }

  lemma {:induction false} SliceOfPrefix<T>(s: seq<T>, more: seq<T>, i: nat, j: nat)
    requires i <= j <= |s|
    ensures (s + more)[i..j] == s[i..j]
  {
  }

  /** More pushed items do not disturb the consumer. */
  lemma {:induction false} PublishSpares<T>(q: Ring<T>, more: seq<T>, wc: nat)
    requires ConsumerOk(q, wc)
    ensures ConsumerOk(q.(pushed := q.pushed + more), wc)
  {
    if q.consumer.Reading? {
      SliceOfPrefix(q.pushed, more, |q.popped|, |q.popped| + |q.consumer.got|);
    }
  }

  lemma {:induction false} PublishWriteKeeps<T>(q: Ring<T>, wc: seq<nat>, rc: seq<nat>)
    requires q.Shaped() && Explains(q, wc, rc) && q.producer.Writing? && q.producer.i == |q.producer.items|
    ensures Explains(Step(q, PublishWrite), wc + [|q.pushed| + |q.producer.items|], rc)
  {
    var q', n := Step(q, PublishWrite), |q.pushed|;
    var items := q.producer.items;
    CountedGrows(q.writeIdx, wc, n, |items|);
    PublishStores(q, rc[q.seenRead]);
    PublishSpares(q, items, wc[q.seenWrite]);
    SliceOfPrefix(q.pushed, items, 0, |q.popped|);
    assert Stored(q') && ConsumerOk(q', wc[q.seenWrite]) && ProducerOk(q', rc[q.seenRead]);
  }

  lemma {:induction false} ReadKeeps<T>(q: Ring<T>, wc: seq<nat>, rc: seq<nat>)
    requires q.Shaped() && Explains(q, wc, rc) && q.consumer.Reading? && |q.consumer.got| < q.consumer.n
    ensures Explains(Step(q, ReadSlot), wc, rc)
  {
    var p := |q.popped| + |q.consumer.got|;
    SlotAhead(|q.popped|, |q.consumer.got|, q.k);
    assert q.buf[p % Pow2(q.k)] == q.pushed[p];
    assert q.pushed[|q.popped|..p + 1] == q.pushed[|q.popped|..p] + [q.pushed[p]];
  }

  lemma {:induction false} PublishReadKeeps<T>(q: Ring<T>, wc: seq<nat>, rc: seq<nat>)
    requires q.Shaped() && Explains(q, wc, rc) && q.consumer.Reading? && |q.consumer.got| == q.consumer.n
    ensures Explains(Step(q, PublishRead), wc, rc + [|q.popped| + q.consumer.n])
  {
    var n := |q.popped|;
    CountedGrows(q.readIdx, rc, n, q.consumer.n);
    assert q.pushed[..n] + q.pushed[n..n + q.consumer.n] == q.pushed[..n + q.consumer.n];
  }

  /** Starting a push of items that fit, against a loaded read index. */
  lemma {:induction false} LoadPushKeeps<T>(q: Ring<T>, wc: seq<nat>, rc: seq<nat>, at: nat, items: seq<T>)
    requires q.Shaped() && Explains(q, wc, rc) && q.seenRead <= at < |q.readIdx| && q.producer.Quiet?
    requires |items| <= Pow2(q.k) - (|q.pushed| - rc[at])
    ensures Explains(q.(seenRead := at, producer := Start(items)), wc, rc)
  {
    assert rc[q.seenRead] <= rc[at];
  }

  lemma {:induction false} LoadPopKeeps<T>(q: Ring<T>, wc: seq<nat>, rc: seq<nat>, at: nat, n: nat)
    requires q.Shaped() && Explains(q, wc, rc) && q.seenWrite <= at < |q.writeIdx| && q.consumer.Resting?
    requires n <= wc[at] - |q.popped|
    ensures Explains(q.(seenWrite := at, consumer := Begin(n)), wc, rc)
  {
    assert wc[q.seenWrite] <= wc[at] <= wc[|wc| - 1];
    assert q.pushed[|q.popped|..|q.popped| + 0] == [];
  }

  lemma {:induction false} ProducerKeeps<T>(q: Ring<T>, a: Action<T>, wc: seq<nat>, rc: seq<nat>)
    requires q.Shaped() && Explains(q, wc, rc)
    requires a.LoadPush? || a.LoadPushBatch? || a.WriteSlot? || a.PublishWrite?
    ensures Sound(Step(q, a))
  {
    if Step(q, a) != q {
      match a
      case LoadPush(item, at) =>
        LoadForPush(q, wc, rc, at);
        LoadPushKeeps(q, wc, rc, at, FirstOf([item], RoomForOne(q, q.readIdx[at])));
      case LoadPushBatch(items, at) =>
        LoadForPush(q, wc, rc, at);
        LoadPushKeeps(q, wc, rc, at, FirstOf(items, RoomForMany(q, q.readIdx[at])));
      case WriteSlot =>
        WriteKeeps(q, wc, rc);
      case PublishWrite =>
        PublishWriteKeeps(q, wc, rc);
    }
  }

  lemma {:induction false} ConsumerKeeps<T>(q: Ring<T>, a: Action<T>, wc: seq<nat>, rc: seq<nat>)
    requires q.Shaped() && Explains(q, wc, rc)
    requires a.LoadPop? || a.LoadPopBatch? || a.ReadSlot? || a.PublishRead?
    ensures Sound(Step(q, a))
  {
    if Step(q, a) != q {
      match a
      case LoadPop(at) =>
        LoadForPop(q, wc, rc, at);
        LoadPopKeeps(q, wc, rc, at, if q.ReadIdx() == q.writeIdx[at] then 0 else 1);
      case LoadPopBatch(max, at) =>
        LoadForPop(q, wc, rc, at);
        LoadPopKeeps(q, wc, rc, at, Min(max, Sub64(q.writeIdx[at], q.ReadIdx())));
      case ReadSlot =>
        ReadKeeps(q, wc, rc);
      case PublishRead =>
        PublishReadKeeps(q, wc, rc);
    }
  }

  lemma {:induction false} StepKeeps<T>(q: Ring<T>, a: Action<T>)
    requires q.Shaped() && Sound(q)
    ensures Sound(Step(q, a))
  {
    var wc, rc :| Explains(q, wc, rc);
    if a.LoadPush? || a.LoadPushBatch? || a.WriteSlot? || a.PublishWrite? {
      ProducerKeeps(q, a, wc, rc);
    } else {
      ConsumerKeeps(q, a, wc, rc);
    }
  }

  lemma {:induction false} RunIsSound<T>(k: nat, buf: seq<T>, actions: seq<Action<T>>)
    requires k < 64 && |buf| == Pow2(k)
    ensures Sound(Run(Empty(k, buf), actions))
  {
    if actions == [] {
      assert Explains(Empty(k, buf), [0], [0]);
    } else {
      RunIsSound(k, buf, actions[..|actions| - 1]);
      StepKeeps(Run(Empty(k, buf), actions[..|actions| - 1]), actions[|actions| - 1]);
    }
  }

  // ----------------------------------------------------------- the safety theorem

  /** The slot the producer writes next, and the one the consumer reads next. */
  function NextWrite(q: Ring): nat
    requires q.Shaped() && q.producer.Writing?
  {
    SlotOf(Add64(q.WriteIdx(), q.producer.i), q.k)
  }

  function NextRead(q: Ring): nat
    requires q.Shaped() && q.consumer.Reading?
  {
    SlotOf(Add64(q.ReadIdx(), |q.consumer.got|), q.k)
  }

  ghost predicate CanWrite(q: Ring) { q.producer.Writing? && q.producer.i < |q.producer.items| }

  ghost predicate CanRead(q: Ring) { q.consumer.Reading? && |q.consumer.got| < q.consumer.n }

  /** The slot of the `d`-th unread item. */
  function SlotAt(q: Ring, d: nat): nat
    requires q.Shaped()
  {
    SlotOf(Add64(q.ReadIdx(), d), q.k)
  }

  lemma {:induction false} ContentsAre<T>(q: Ring<T>, wc: seq<nat>, rc: seq<nat>)
    requires q.Shaped() && Explains(q, wc, rc)
    ensures Sub64(q.WriteIdx(), q.ReadIdx()) == |q.pushed| - |q.popped| <= Pow2(q.k)
    ensures q.Contents() == q.pushed[|q.popped|..]
    ensures forall d: nat :: SlotAt(q, d) == (|q.popped| + d) % Pow2(q.k)
  {
    LoadForPop(q, wc, rc, |q.writeIdx| - 1);
    assert rc[q.seenRead] <= |q.popped|;
    forall d: nat
      ensures SlotAt(q, d) == (|q.popped| + d) % Pow2(q.k)
    {
      SlotAhead(|q.popped|, d, q.k);
    }
    forall d | 0 <= d < |q.pushed| - |q.popped|
      ensures q.Contents()[d] == q.pushed[|q.popped|..][d]
    {
      assert q.buf[(|q.popped| + d) % Pow2(q.k)] == q.pushed[|q.popped| + d];
      assert q.Contents()[d] == q.buf[SlotAt(q, d)];
    }
  }

  /** What was popped, followed by what lies in the ring, is what was pushed; at most N items
      lie there. */
  ghost predicate Conserves(q: Ring)
    requires q.Shaped()
  {
    q.popped + q.Contents() == q.pushed && |q.Contents()| <= Pow2(q.k)
  }

  /** The producer's next slot holds no unread item. */
  ghost predicate NoOverwrite(q: Ring)
    requires q.Shaped()
  {
    CanWrite(q) ==> forall d :: 0 <= d < |q.Contents()| ==> SlotAt(q, d) != NextWrite(q)
  }

  /** The consumer's next slot is published, holds the next item in order, and is not the
      slot being written. */
  ghost predicate NoEarlyRead(q: Ring)
    requires q.Shaped()
  {
    CanRead(q) ==>
      && |q.consumer.got| < |q.Contents()|
      && q.consumer.got + [q.buf[NextRead(q)]] == q.Contents()[..|q.consumer.got| + 1]
      && (CanWrite(q) ==> NextRead(q) != NextWrite(q))
  }

  lemma {:induction false} SoundConserves<T>(q: Ring<T>, wc: seq<nat>, rc: seq<nat>)
    requires q.Shaped() && Explains(q, wc, rc)
    ensures Conserves(q) && NoOverwrite(q)
  {
    ContentsAre(q, wc, rc);
    if CanWrite(q) {
      forall d | 0 <= d < |q.Contents()| ensures SlotAt(q, d) != NextWrite(q) {
        WriteIsSafe(q, wc, rc, |q.popped| + d);
      }
    }
  }

  /** The slot the consumer reads next is the next unread item's. */
  lemma {:induction false} NextReadIs<T>(q: Ring<T>, wc: seq<nat>, rc: seq<nat>)
    requires q.Shaped() && Explains(q, wc, rc) && CanRead(q)
    ensures var g := |q.consumer.got|;
      NextRead(q) == SlotAt(q, g) && g < |q.Contents()| && q.buf[NextRead(q)] == q.Contents()[g] && q.consumer.got == q.Contents()[..g]
  {
    ContentsAre(q, wc, rc);
    var g, c := |q.consumer.got|, q.Contents();
    assert c[g] == q.buf[SlotAt(q, g)];
    assert c[..g] == q.pushed[|q.popped|..|q.popped| + g];
  }

  lemma {:induction false} SoundReads<T>(q: Ring<T>, wc: seq<nat>, rc: seq<nat>)
    requires q.Shaped() && Explains(q, wc, rc)
    ensures NoEarlyRead(q)
  {
    if CanRead(q) {
      NextReadIs(q, wc, rc);
      var g, c := |q.consumer.got|, q.Contents();
      assert c[..g + 1] == c[..g] + [c[g]];
      if CanWrite(q) {
        SoundConserves(q, wc, rc);
      }
    }
  }

  /** Under every interleaving, with indices as stale as coherence allows: nothing is lost,
      duplicated or reordered, at most N items are held, no unread slot is overwritten and no
      slot is read before it is published. */
  lemma {:induction false} RingIsSafe<T>(k: nat, buf: seq<T>, actions: seq<Action<T>>)
    requires k < 64 && |buf| == Pow2(k)
    ensures var q := Run(Empty(k, buf), actions); Conserves(q) && NoOverwrite(q) && NoEarlyRead(q)
  {
    RunIsSound(k, buf, actions);
    var q := Run(Empty(k, buf), actions);
    var wc, rc :| Explains(q, wc, rc);
    SoundConserves(q, wc, rc);
    SoundReads(q, wc, rc);
  }

  /** A push that loads the latest index is refused exactly when N items lie in the ring, and
      such a pop exactly when none does. */
  ghost predicate RefusesExactly<T>(q: Ring<T>, item: T)
    requires q.Shaped()
  {
    && (q.producer.Quiet? ==>
          (Step(q, LoadPush(item, |q.readIdx| - 1)).producer.Quiet? <==> |q.Contents()| == Pow2(q.k)))
    && (q.consumer.Resting? ==>
          (Step(q, LoadPop(|q.writeIdx| - 1)).consumer.Resting? <==> q.Contents() == []))
  }

  lemma {:induction false} SoundRefusals<T>(q: Ring<T>, wc: seq<nat>, rc: seq<nat>, item: T)
    requires q.Shaped() && Explains(q, wc, rc)
    ensures RefusesExactly(q, item)
  {
    ContentsAre(q, wc, rc);
    LoadForPush(q, wc, rc, |q.readIdx| - 1);
    LoadForPop(q, wc, rc, |q.writeIdx| - 1);
  }

  /** With an up-to-date index the single operations refuse exactly when the ring is full, or empty. */
  lemma {:induction false} FreshRefusals<T>(k: nat, buf: seq<T>, actions: seq<Action<T>>, item: T)
    requires k < 64 && |buf| == Pow2(k)
    ensures RefusesExactly(Run(Empty(k, buf), actions), item)
  {
    RunIsSound(k, buf, actions);
    var q := Run(Empty(k, buf), actions);
    var wc, rc :| Explains(q, wc, rc);
    SoundRefusals(q, wc, rc, item);
  }
}
