/** The ring's operations as the code runs them, each against one load of the other side's
    index, and the batch operations as repeated single ones. */
module SpscQueues {
  import opened Types
  import opened Words

  class SPSCQueue<T(0)> {
    const k: nat
    const buffer: array<T>
    var writeIdx: Word
    var readIdx: Word
    /** Everything ever pushed and popped. */
    ghost var pushed: seq<T>
    ghost var popped: seq<T>

    ghost predicate Valid()
      reads this, buffer
    {
      && k < 64 && buffer.Length == Pow2(k)
      && writeIdx == Wrap(|pushed|) && readIdx == Wrap(|popped|)
      && |popped| <= |pushed| <= |popped| + Pow2(k)
      && popped == pushed[..|popped|]
      && InSlots(buffer[..], k, pushed, |popped|, |pushed|)
    }

    constructor (k: nat)
      requires k < 64
      ensures Valid() && this.k == k && pushed == [] && popped == [] && fresh(buffer)
    {
      this.k := k;
      buffer := new T[Pow2(k)];
      writeIdx, readIdx, pushed, popped := 0, 0, [], [];
    }

    /** Enqueue one item unless the ring is full as of the loaded read index, `seen`. */
    method TryPush(item: T, seen: Word, ghost at: nat) returns (ok: bool)
      requires Valid() && seen == Wrap(at) && at <= |popped| && |pushed| <= at + Pow2(k)
      modifies this`writeIdx, this`pushed, buffer
      ensures Valid()
      ensures ok <==> |old(pushed)| < at + Pow2(k)
      ensures pushed == old(pushed) + if ok then [item] else []
      ensures Writer(buffer[..], writeIdx) == PushOne(old(Writer(buffer[..], writeIdx)), k, item, seen)
    {
      PushTest(|pushed|, at, k);
      if Sub64(writeIdx, seen) == Pow2(k) {
        return false;
      }
      AddWrapped(|pushed|, 1);
      WriteNext(buffer[..], k, pushed, |popped|, |pushed|, 0, item);
      AddNothing(writeIdx);
      buffer[SlotOf(writeIdx, k)] := item;
      writeIdx := Add64(writeIdx, 1);
      pushed := pushed + [item];
      ok := true;
    }

    /** Dequeue one item unless the ring is empty as of the loaded write index, `seen`. */
    method TryPop(seen: Word, ghost at: nat) returns (out: Option<T>)
      requires Valid() && seen == Wrap(at) && |popped| <= at <= |pushed|
      modifies this`readIdx, this`popped
      ensures Valid()
      ensures out.Some? <==> |old(popped)| < at
      ensures popped == old(popped) + if out.Some? then [out.value] else []
      ensures (Reader(buffer[..], readIdx), popped) == PopOne((old(Reader(buffer[..], readIdx)), old(popped)), k, seen)
    {
      PopTest(at, |popped|, k);
      if readIdx == seen {
        return None;
      }
      AddWrapped(|popped|, 1);
      ReadNext(buffer[..], k, pushed, |popped|, |pushed|, 0);
      AddNothing(readIdx);
      out := Some(buffer[SlotOf(readIdx, k)]);
      readIdx := Add64(readIdx, 1);
      popped := popped + [out.value];
    }

    /** Enqueue as many of `items` as fit as of one load of the read index. */
    method TryPushBatch(items: seq<T>, seen: Word, ghost at: nat) returns (n: nat)
      requires Valid() && seen == Wrap(at) && at <= |popped| && |pushed| <= at + Pow2(k)
      modifies this`writeIdx, this`pushed, buffer
      ensures Valid()
      ensures n == Min(|items|, at + Pow2(k) - |old(pushed)|)
      ensures pushed == old(pushed) + items[..n]
      ensures Writer(buffer[..], writeIdx) == PushBatch(old(Writer(buffer[..], writeIdx)), k, items, seen)
    {
      PushTest(|pushed|, at, k);
      var available := Sub64(Pow2(k), Sub64(writeIdx, seen));
      n := Min(|items|, available);
      ghost var was := buffer[..];
      var i := 0;
      while i < n
        invariant 0 <= i <= n && writeIdx == old(writeIdx) && pushed == old(pushed)
        invariant buffer[..] == Filled(was, k, writeIdx, items, i)
      {
        buffer[SlotOf(Add64(writeIdx, i), k)] := items[i];
        i := i + 1;
      }
      AddWrapped(|pushed|, n);
      FilledInSlots(was, k, pushed, |popped|, items, n);
      if n > 0 {
        writeIdx := Add64(writeIdx, n);
      }
      pushed := pushed + items[..n];
    }

    /** Dequeue up to `max` items as of one load of the write index. */
    method TryPopBatch(max: nat, seen: Word, ghost at: nat) returns (out: seq<T>)
      requires Valid() && seen == Wrap(at) && |popped| <= at <= |pushed|
      modifies this`readIdx, this`popped
      ensures Valid()
      ensures |out| == Min(max, at - |old(popped)|)
      ensures popped == old(popped) + out
      ensures (Reader(buffer[..], readIdx), out) == PopBatch(old(Reader(buffer[..], readIdx)), k, max, seen)
    {
      PopTest(at, |popped|, k);
      var n := Min(max, Sub64(seen, readIdx));
      out := [];
      while |out| < n
        invariant |out| <= n
        invariant out == ReadOut(buffer[..], k, readIdx, |out|)
      {
        out := out + [buffer[SlotOf(Add64(readIdx, |out|), k)]];
      }
      AddWrapped(|popped|, n);
      PopDone(buffer[..], k, pushed, |popped|, |pushed|, n);
      if n > 0 {
        readIdx := Add64(readIdx, n);
      }
      popped := popped + out;
    }
  }

  /** Positions `lo..hi` of the stream lie in their slots. */
  ghost predicate InSlots<T>(buf: seq<T>, k: nat, stream: seq<T>, lo: nat, hi: nat) {
    |buf| == Pow2(k) && hi <= |stream| && forall p :: lo <= p < hi ==> buf[p % Pow2(k)] == stream[p]
  }

  /** Writing the next position disturbs none that is less than a lap behind. */
  lemma {:induction false} WriteNext<T>(buf: seq<T>, k: nat, stream: seq<T>, lo: nat, c: nat, i: nat, item: T)
    requires k < 64 && InSlots(buf, k, stream, lo, c + i) && |stream| == c + i && lo <= c + i < lo + Pow2(k)
    ensures InSlots(buf[SlotOf(Add64(Wrap(c), i), k) := item], k, stream + [item], lo, c + i + 1)
  {
    SlotAhead(c, i, k);
    forall p | lo <= p < c + i ensures p % Pow2(k) != (c + i) % Pow2(k) {
      SlotsDiffer(c + i, p, Pow2(k));
    }
  }

  /** Writing `n` items behind the stream, within a lap of `lo`. */
  lemma {:induction false} FilledInSlots<T>(buf: seq<T>, k: nat, stream: seq<T>, lo: nat, items: seq<T>, n: nat)
    requires k < 64 && InSlots(buf, k, stream, lo, |stream|) && n <= |items| && lo <= |stream| && |stream| + n <= lo + Pow2(k)
    ensures InSlots(Filled(buf, k, Wrap(|stream|), items, n), k, stream + items[..n], lo, |stream| + n)
  {
    if n > 0 {
      FilledInSlots(buf, k, stream, lo, items, n - 1);
      WriteNext(Filled(buf, k, Wrap(|stream|), items, n - 1), k, stream + items[..n - 1], lo, |stream|, n - 1, items[n - 1]);
      assert stream + items[..n] == stream + items[..n - 1] + [items[n - 1]];
    } else {
      assert stream + items[..0] == stream;
    }
  }

  lemma {:induction false} ReadNext<T>(buf: seq<T>, k: nat, stream: seq<T>, c: nat, hi: nat, i: nat)
    requires k < 64 && InSlots(buf, k, stream, c, hi) && c + i < hi
    ensures buf[SlotOf(Add64(Wrap(c), i), k)] == stream[c + i]
  {
    SlotAhead(c, i, k);
    assert buf[(c + i) % Pow2(k)] == stream[c + i];
  }

  /** Reading `n` slots from `c` on yields that stretch of the stream. */
  lemma {:induction false} ReadOutIs<T>(buf: seq<T>, k: nat, stream: seq<T>, c: nat, hi: nat, n: nat)
    requires k < 64 && InSlots(buf, k, stream, c, hi) && c + n <= hi
    ensures ReadOut(buf, k, Wrap(c), n) == stream[c..c + n]
  {
    if n > 0 {
      ReadOutIs(buf, k, stream, c, hi, n - 1);
      ReadNext(buf, k, stream, c, hi, n - 1);
      assert stream[c..c + n] == stream[c..c + n - 1] + [stream[c + n - 1]];
    }
  }

  lemma {:induction false} PopDone<T>(buf: seq<T>, k: nat, stream: seq<T>, c: nat, hi: nat, n: nat)
    requires k < 64 && InSlots(buf, k, stream, c, hi) && c + n <= hi
    ensures stream[..c] + ReadOut(buf, k, Wrap(c), n) == stream[..c + n]
    ensures InSlots(buf, k, stream, c + n, hi)
  {
    ReadOutIs(buf, k, stream, c, hi, n);
  }

  lemma {:induction false} AddNothing(idx: Word)
    ensures Add64(idx, 0) == idx
  {
  }

  /** The producer's tests on words, in terms of counters. */
  lemma {:induction false} PushTest(c: nat, at: nat, k: nat)
    requires k < 64 && at <= c <= at + Pow2(k)
    ensures Sub64(Wrap(c), Wrap(at)) == c - at
    ensures Sub64(Pow2(k), Sub64(Wrap(c), Wrap(at))) == at + Pow2(k) - c
  {
    RingFits(k);
    TestsWrapped(c, at, Pow2(k));
    NoBorrow(Pow2(k), c - at);
  }

  /** The consumer's tests on words, in terms of counters. */
  lemma {:induction false} PopTest(at: nat, c: nat, k: nat)
    requires k < 64 && c <= at <= c + Pow2(k)
    ensures Sub64(Wrap(at), Wrap(c)) == at - c
    ensures Wrap(c) == Wrap(at) <==> c == at
  {
    RingFits(k);
    TestsWrapped(at, c, Pow2(k));
  }

  // ------------------------------------------------- batches as repeated singles

  /** The producer's half of the ring: the slots and its own index. */
  datatype Writer<T> = Writer(buf: seq<T>, idx: Word)

  datatype Reader<T> = Reader(buf: seq<T>, idx: Word)

  /** The slots after writing the first `n` items from index `idx` on. */
  function Filled<T>(buf: seq<T>, k: nat, idx: Word, items: seq<T>, n: nat): (b: seq<T>)
    requires |buf| == Pow2(k) && n <= |items|
    ensures |b| == |buf|
  {
    if n == 0 then buf
    else Filled(buf, k, idx, items, n - 1)[SlotOf(Add64(idx, n - 1), k) := items[n - 1]]
  }

  function PushBatch<T>(w: Writer<T>, k: nat, items: seq<T>, seen: Word): (w': Writer<T>)
    requires |w.buf| == Pow2(k)
  {
    var n := Min(|items|, Sub64(Pow2(k), Sub64(w.idx, seen)));
    Writer(Filled(w.buf, k, w.idx, items, n), if n > 0 then Add64(w.idx, n) else w.idx)
  }

  function PushOne<T>(w: Writer<T>, k: nat, item: T, seen: Word): (w': Writer<T>)
    requires |w.buf| == Pow2(k)
    ensures |w'.buf| == Pow2(k)
  {
    if Sub64(w.idx, seen) == Pow2(k) then w
    else Writer(w.buf[SlotOf(w.idx, k) := item], Add64(w.idx, 1))
  }

  /** Offer the items one after the other, against the same loaded index. */
  function PushEach<T>(w: Writer<T>, k: nat, items: seq<T>, seen: Word): (w': Writer<T>)
    requires |w.buf| == Pow2(k)
    ensures |w'.buf| == Pow2(k)
  {
    if items == [] then w
    else PushOne(PushEach(w, k, items[..|items| - 1], seen), k, items[|items| - 1], seen)
  }

  lemma {:induction false} FilledPrefix<T>(buf: seq<T>, k: nat, idx: Word, items: seq<T>, m: nat, n: nat)
    requires |buf| == Pow2(k) && n <= m <= |items|
    ensures Filled(buf, k, idx, items[..m], n) == Filled(buf, k, idx, items, n)
  {
    if n > 0 { FilledPrefix(buf, k, idx, items, m, n - 1); }
  }

  /** A batch push is the single pushes, one after the other, against one snapshot. */
  lemma {:induction false} BatchPushIsSingles<T>(w: Writer<T>, k: nat, items: seq<T>, seen: Word, c: nat, at: nat)
    requires k < 64 && |w.buf| == Pow2(k)
    requires w.idx == Wrap(c) && seen == Wrap(at) && at <= c <= at + Pow2(k)
    ensures PushEach(w, k, items, seen) == PushBatch(w, k, items, seen)
    decreases |items|
  {
    PushTest(c, at, k);
    if items != [] {
      var m := |items| - 1;
      BatchPushIsSingles(w, k, items[..m], seen, c, at);
      BatchPushGrows(w, k, items, seen, c, at);
    }
  }

  /** Offering one more item after a batch is a batch with one more item. */
  lemma {:induction false} BatchPushGrows<T>(w: Writer<T>, k: nat, items: seq<T>, seen: Word, c: nat, at: nat)
    requires k < 64 && |w.buf| == Pow2(k) && items != []
    requires w.idx == Wrap(c) && seen == Wrap(at) && at <= c <= at + Pow2(k)
    ensures PushOne(PushBatch(w, k, items[..|items| - 1], seen), k, items[|items| - 1], seen)
         == PushBatch(w, k, items, seen)
  {
    PushTest(c, at, k);
    var m, room := |items| - 1, at + Pow2(k) - c;
    var n := Min(m, room);
    FilledPrefix(w.buf, k, w.idx, items, m, n);
    var w' := PushBatch(w, k, items[..m], seen);
    assert w'.buf == Filled(w.buf, k, w.idx, items, n);
    assert w'.idx == Add64(w.idx, n) == Wrap(c + n) by { AddWrapped(c, n); }
    PushTest(c + n, at, k);
    if m < room {
      AddOneMore(c, n);
    }
  }

  lemma {:induction false} AddOneMore(c: nat, n: nat)
    ensures Add64(Wrap(c + n), 1) == Add64(Wrap(c), n + 1)
  {
    AddWrapped(c + n, 1);
    AddWrapped(c, n + 1);
  }

  function ReadOut<T>(buf: seq<T>, k: nat, idx: Word, n: nat): (s: seq<T>)
    requires |buf| == Pow2(k)
    ensures |s| == n
  {
    if n == 0 then [] else ReadOut(buf, k, idx, n - 1) + [buf[SlotOf(Add64(idx, n - 1), k)]]
  }

  function PopBatch<T>(r: Reader<T>, k: nat, max: nat, seen: Word): (o: (Reader<T>, seq<T>))
    requires |r.buf| == Pow2(k)
  {
    var n := Min(max, Sub64(seen, r.idx));
    (Reader(r.buf, if n > 0 then Add64(r.idx, n) else r.idx), ReadOut(r.buf, k, r.idx, n))
  }

  /** Try to take one item after the ones in `o.1`. */
  function PopOne<T>(o: (Reader<T>, seq<T>), k: nat, seen: Word): (o': (Reader<T>, seq<T>))
    requires |o.0.buf| == Pow2(k)
    ensures |o'.0.buf| == Pow2(k)
  {
    if o.0.idx == seen then o
    else (Reader(o.0.buf, Add64(o.0.idx, 1)), o.1 + [o.0.buf[SlotOf(o.0.idx, k)]])
  }

  function PopEach<T>(r: Reader<T>, k: nat, max: nat, seen: Word): (o: (Reader<T>, seq<T>))
    requires |r.buf| == Pow2(k)
    ensures |o.0.buf| == Pow2(k)
  {
    if max == 0 then (r, []) else PopOne(PopEach(r, k, max - 1, seen), k, seen)
  }

  /** A batch pop is the single pops, one after the other, against one snapshot. */
  lemma {:induction false} BatchPopIsSingles<T>(r: Reader<T>, k: nat, max: nat, seen: Word, c: nat, at: nat)
    requires k < 64 && |r.buf| == Pow2(k)
    requires r.idx == Wrap(c) && seen == Wrap(at) && c <= at <= c + Pow2(k)
    ensures PopEach(r, k, max, seen) == PopBatch(r, k, max, seen)
    decreases max
  {
    PopTest(at, c, k);
    if max > 0 {
      BatchPopIsSingles(r, k, max - 1, seen, c, at);
      BatchPopGrows(r, k, max, seen, c, at);
    }
  }

  lemma {:induction false} BatchPopGrows<T>(r: Reader<T>, k: nat, max: nat, seen: Word, c: nat, at: nat)
    requires k < 64 && |r.buf| == Pow2(k) && max > 0
    requires r.idx == Wrap(c) && seen == Wrap(at) && c <= at <= c + Pow2(k)
    ensures PopOne(PopBatch(r, k, max - 1, seen), k, seen) == PopBatch(r, k, max, seen)
  {
    PopTest(at, c, k);
    var n := Min(max - 1, at - c);
    AddWrapped(c, n);
    AddWrapped(c + n, 1);
    AddWrapped(c, n + 1);
    PopTest(at, c + n, k);
  }
}
