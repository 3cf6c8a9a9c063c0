/** From the client's messages to the engine's reports: decoder, ring and engine driven together. */
module Pipelines {
  import opened Types
  import opened Words
  import opened Folding
  import opened Wire
  import Framing
  import opened Decoders
  import opened Reference
  import RunLaws
  import opened Runs
  import opened SpscQueues
  import opened MatchingEngines

  /** One received span per group of messages, each in the buffer named beside it. */
  function Sent(groups: seq<seq<Msg>>, ids: seq<nat>): (spans: seq<RawByteSpan>)
    requires |ids| == |groups|
    ensures |spans| == |groups|
  {
    seq(|groups|, i requires 0 <= i < |groups| =>
      RawByteSpan(Some(Concat(Framing.Encodings(groups[i]))), ids[i]))
  }

  ghost predicate AllSendable(groups: seq<seq<Msg>>) {
    forall i, j :: 0 <= i < |groups| && 0 <= j < |groups[i]| ==> Framing.Sendable(groups[i][j])
  }

  lemma {:induction false} LastSpan<T>(read: seq<Byte> -> seq<T>, count: seq<Byte> -> nat, spans: seq<RawByteSpan>)
    requires spans != []
    ensures var n := |spans| - 1; var b := BytesOf(spans[n]);
      && Gathered(read, spans) == Gathered(read, spans[..n]) + read(b)
      && Summed(count, spans) == Summed(count, spans[..n]) + count(b)
  {
  }

  lemma {:induction false} ConcatLast<T>(parts: seq<seq<T>>)
    requires parts != []
    ensures Concat(parts) == Concat(parts[..|parts| - 1]) + parts[|parts| - 1]
  {
    var n := |parts| - 1;
    ConcatAppend(parts[..n], [parts[n]]);
    assert parts[..n] + [parts[n]] == parts;
    assert [parts[n]][1..] == [];
  }

  /** However messages are grouped into spans, the spans decode to the messages, without error. */
  lemma {:induction false} SentIsDecoded(groups: seq<seq<Msg>>, ids: seq<nat>)
    requires |ids| == |groups| && AllSendable(groups)
    ensures DecodedSpans(Sent(groups, ids)) == Concat(groups) && ErrorsIn(Sent(groups, ids)) == 0
    decreases |groups|
  {
    if groups != [] {
      var n := |groups| - 1;
      SentIsDecoded(groups[..n], ids[..n]);
      assert Sent(groups, ids)[..n] == Sent(groups[..n], ids[..n]);
      Framing.EncodedStreamDecodes(groups[n]);
      LastSpan(Framing.Decoded, Framing.Errors, Sent(groups, ids));
      ConcatLast(groups);
    }
  }

  lemma {:induction false} GatheredLast<T>(read: seq<Byte> -> seq<T>, spans: seq<RawByteSpan>, init: seq<RawByteSpan>, last: RawByteSpan)
    requires spans == init + [last]
    ensures Gathered(read, spans) == Gathered(read, init) + read(BytesOf(last))
  {
    assert spans[..|spans| - 1] == init;
  }

  lemma {:induction false} GatheredAppend<T>(read: seq<Byte> -> seq<T>, a: seq<RawByteSpan>, b: seq<RawByteSpan>)
    ensures Gathered(read, a + b) == Gathered(read, a) + Gathered(read, b)
    decreases |b|
  {
    if b == [] {
      assert a + b == a;
    } else {
      var n := |b| - 1;
      GatheredAppend(read, a, b[..n]);
      GatheredLast(read, a + b, a + b[..n], b[n]);
      GatheredLast(read, b, b[..n], b[n]);
      AppendTwice(Gathered(read, a), Gathered(read, b[..n]), read(BytesOf(b[n])));
    }
  }

  /** Message number `from + i` is dispatched at `clock(from + i)`. */
  function Stamp(ms: seq<Msg>, clock: nat -> nat, from: nat): (s: seq<Stamped>)
    ensures |s| == |ms|
  {
    seq(|ms|, i requires 0 <= i < |ms| => Stamped(ms[i], clock(from + i)))
  }

  lemma {:induction false} StampStretch(ms: seq<Msg>, clock: nat -> nat, n: nat, k: nat)
    requires n + k <= |ms|
    ensures Stamp(ms, clock, 0)[n..][..k] == Stamp(ms[n..n + k], clock, n)
  {
  }

  // Named one by one so that the solver unfolds only what a proof asks for.
  datatype Matter = InvariantMatter | OutcomeMatter

  /** Both ends of the path: raw spans come in, the engine works off what is decoded. */
  class Pipeline {
    const decoder: Decoder
    const ring: SPSCQueue<Msg>
    const engine: MatchingEngine
    const clock: nat -> nat
    var raw: seq<RawByteSpan>
    /** Decoded, and waiting for room in the ring. */
    var waiting: seq<Msg>
    var returned: seq<nat>
    /** Messages handed to the engine. */
    var done: nat
    /** What `raw` will decode to. */
    ghost var undecoded: seq<Msg>
    /** Every message on its way, and where the engine started. */
    ghost const all: seq<Msg>
    ghost const stream: seq<Stamped>
    ghost const start: State
    ghost const startClock: nat
    ghost const startLog: seq<Report>

    /** No message is lost, duplicated or reordered between the socket and the engine. */
    ghost predicate Conserved()
      reads this`waiting, this`undecoded, this`done, ring, ring.buffer
    {
      && ring.Valid() && |ring.popped| == done <= |all|
      && all == ring.pushed + waiting + undecoded
    }

    ghost predicate RawIs()
      reads this`raw, this`undecoded
    {
      undecoded == DecodedSpans(raw)
    }

    ghost predicate CaughtUpIn(c: Matter, n: nat)
      reads engine`model, engine`vals, engine`leaked, engine`fillsExecuted, engine`ordersRejected
      reads engine`books, engine`clock, engine`log, engine.pool, engine.pool.storage, engine.books.Values
    {
      match c
      case InvariantMatter => engine.Valid()
      case OutcomeMatter =>
        && CameTo(start, stream, n, startLog, engine.model, engine.log)
        && n <= |stream| && engine.clock == ClockAt(startClock, stream, n)
    }

    /** The engine is where processing the first `n` messages one by one leads. */
    ghost predicate CaughtUp(n: nat)
      reads engine`model, engine`vals, engine`leaked, engine`fillsExecuted, engine`ordersRejected
      reads engine`books, engine`clock, engine`log, engine.pool, engine.pool.storage, engine.books.Values
    {
      forall c {:trigger CaughtUpIn(c, n)} :: CaughtUpIn(c, n)
    }

    lemma OpenCaughtUp(n: nat)
      requires CaughtUp(n)
      ensures engine.Valid() && CameTo(start, stream, n, startLog, engine.model, engine.log)
      ensures n <= |stream| && engine.clock == ClockAt(startClock, stream, n)
    {
      assert CaughtUpIn(InvariantMatter, n) && CaughtUpIn(OutcomeMatter, n);
    }

    ghost predicate Admitted()
      reads {}
    {
      AdmissibleRun(start, stream) && RunLaws.Monotone(startClock, stream)
    }

    ghost predicate StreamIs()
      reads {}
    {
      stream == Stamp(all, clock, 0)
    }

    constructor (d: Decoder, e: MatchingEngine, k: nat, readings: nat -> nat, groups: seq<seq<Msg>>, ids: seq<nat>)
      requires e.Valid() && k < 64 && |ids| == |groups| && AllSendable(groups)
      requires AdmissibleRun(e.model, Stamp(Concat(groups), readings, 0))
      requires RunLaws.Monotone(e.clock, Stamp(Concat(groups), readings, 0))
      ensures Conserved() && RawIs() && CaughtUp(done) && Admitted() && StreamIs() && fresh(ring) && fresh(ring.buffer)
      ensures decoder == d && engine == e && clock == readings && raw == Sent(groups, ids)
      ensures all == Concat(groups) && start == e.model && startLog == e.log
    {
      decoder, engine, clock := d, e, readings;
      ring := new SPSCQueue<Msg>(k);
      raw, waiting, returned, done := Sent(groups, ids), [], [], 0;
      undecoded := Concat(groups);
      all, stream := Concat(groups), Stamp(Concat(groups), readings, 0);
      start, startClock, startLog := e.model, e.clock, e.log;
      new;
      SentIsDecoded(groups, ids);
      ComesFrom(start, stream, startLog);
      assert CaughtUpIn(InvariantMatter, 0);
      assert CaughtUpIn(OutcomeMatter, 0);
    }

    /** The decoder thread decodes some spans. */
    method DecodeSome(spanBatch: nat)
      requires Conserved() && RawIs()
      modifies this`raw, this`waiting, this`returned, this`undecoded, decoder
      ensures Conserved() && RawIs()
      ensures |raw| <= |old(raw)| && (ToInt(spanBatch) > 0 && old(raw) != [] ==> |raw| < |old(raw)|)
    {
      var n, raw', waiting', returned' := decoder.Poll(raw, waiting, returned, spanBatch);
      ghost var now, later := DecodedSpans(raw[..n]), DecodedSpans(raw[n..]);
      GatheredParts(Framing.Decoded, raw, n);
      Shift(ring.pushed, waiting, now, later);
      raw, waiting, returned, undecoded := raw', waiting', returned', later;
    }

    /** The decoder pushes what is decoded, one message at a time, until the ring is full. */
    method PushSome()
      requires Conserved()
      modifies this`waiting, ring`writeIdx, ring`pushed, ring.buffer
      ensures Conserved()
      ensures done < |all| && undecoded == [] ==> |ring.pushed| > done
    {
      var ok := true;
      while ok && waiting != []
        invariant Conserved() && (!ok ==> |ring.pushed| > done)
        decreases ok, |waiting|
      {
        ok := PushFirst();
      }
    }

    /** Offer the first waiting message to the ring. */
    method PushFirst() returns (ok: bool)
      requires Conserved() && waiting != []
      modifies this`waiting, ring`writeIdx, ring`pushed, ring.buffer
      ensures Conserved()
      ensures ok ==> waiting == old(waiting)[1..]
      ensures !ok ==> waiting == old(waiting) && |ring.pushed| > done
    {
      var m := waiting[0];
      MoveOne(ring.pushed, waiting, undecoded);
      ok := ring.TryPush(m, ring.readIdx, |ring.popped|);
      if ok {
        waiting := waiting[1..];
      } else {
        assert old(ring.pushed) + [] == old(ring.pushed);
      }
    }

    /** The engine thread pops a batch off the ring. */
    method PopSome(msgBatch: nat) returns (batch: seq<Msg>)
      requires Conserved()
      modifies ring`readIdx, ring`popped
      ensures ring.Valid() && ring.pushed == old(ring.pushed) && |ring.popped| == done + |batch| <= |all|
      ensures batch == all[done..done + |batch|] && |batch| <= 64
      ensures msgBatch > 0 && |ring.pushed| > done ==> batch != []
    {
      batch := ring.TryPopBatch(Min(msgBatch, 64), ring.writeIdx, |ring.pushed|);
      BatchIs(all, ring.pushed, ring.popped, done, batch);
    }

    /** The engine processes the stretch of the stream behind its first `n` messages. */
    method Process(batch: seq<Stamped>, ghost n: nat) returns (k: nat)
      requires CaughtUp(n) && Admitted()
      requires n + |batch| <= |stream| && batch == stream[n..][..|batch|] && |batch| <= 64
      modifies engine`log, engine`fillsExecuted, engine`ordersRejected, engine`leaked, engine`vals, engine`model, engine`clock
      modifies engine`ordersProcessed, engine.pool, engine.pool.storage, engine.books.Values
      ensures k == |batch| && CaughtUp(n + k)
    {
      OpenCaughtUp(n);
      k := engine.PollStretch(batch, stream, n, start, startClock, startLog);
      assert CaughtUpIn(InvariantMatter, n + k);
      assert CaughtUpIn(OutcomeMatter, n + k);
    }

    /** The engine thread pops a batch off the ring and processes it. */
    method ProcessSome(msgBatch: nat)
      requires Conserved() && CaughtUp(done) && Admitted() && StreamIs()
      modifies this`done, ring`readIdx, ring`popped
      modifies engine`log, engine`fillsExecuted, engine`ordersRejected, engine`leaked, engine`vals, engine`model, engine`clock
      modifies engine`ordersProcessed, engine.pool, engine.pool.storage, engine.books.Values
      ensures Conserved() && CaughtUp(done)
      ensures done >= old(done) && (msgBatch > 0 && |old(ring.pushed)| > old(done) ==> done > old(done))
    {
      var batch := PopSome(msgBatch);
      StampStretch(all, clock, done, |batch|);
      var k := Process(Stamp(batch, clock, done), done);
      done := done + k;
    }

    /** One turn of all three: decode some spans, push what fits, process a batch.  Any batch
        sizes are allowed, also zero. */
    method Turn(spanBatch: nat, msgBatch: nat)
      requires Conserved() && RawIs() && CaughtUp(done) && Admitted() && StreamIs()
      modifies this`raw, this`waiting, this`returned, this`undecoded, this`done, decoder, ring, ring.buffer
      modifies engine`log, engine`fillsExecuted, engine`ordersRejected, engine`leaked, engine`vals, engine`model, engine`clock
      modifies engine`ordersProcessed, engine.pool, engine.pool.storage, engine.books.Values
      ensures Conserved() && RawIs() && CaughtUp(done)
      ensures |raw| <= |old(raw)| && done >= old(done)
      ensures ToInt(spanBatch) > 0 && msgBatch > 0 && (old(raw) != [] || old(done) < |all|) ==>
        |raw| < |old(raw)| || done > old(done)
    {
      DecodeSome(spanBatch);
      PushSome();
      ProcessSome(msgBatch);
    }

    /** Take turns until nothing is on its way, turn `i` with batch sizes `spanBatch(i)` and
        `msgBatch(i)`. */
    method TakeTurns(spanBatch: nat -> nat, msgBatch: nat -> nat, i: nat)
      requires Conserved() && RawIs() && CaughtUp(done) && Admitted() && StreamIs()
      requires forall i: nat :: ToInt(spanBatch(i)) > 0 && msgBatch(i) > 0
      modifies this`raw, this`waiting, this`returned, this`undecoded, this`done, decoder, ring, ring.buffer
      modifies engine`log, engine`fillsExecuted, engine`ordersRejected, engine`leaked, engine`vals, engine`model, engine`clock
      modifies engine`ordersProcessed, engine.pool, engine.pool.storage, engine.books.Values
      ensures CaughtUp(|all|) && done == |all| && raw == [] && Conserved()
      decreases |raw|, |all| - done
    {
      if raw == [] && waiting == [] && ring.readIdx == ring.writeIdx {
        AllDone(all, ring.pushed, ring.popped, ring.k);
        return;
      }
      NotDone(all, ring.pushed, ring.popped, waiting, undecoded);
      Turn(spanBatch(i), msgBatch(i));
      TakeTurns(spanBatch, msgBatch, i + 1);
    }

    /** With batch sizes that change from turn to turn in any way, the engine ends exactly where
        submitting the sent messages one by one would have left it. */
    method Serve(spanBatch: nat -> nat, msgBatch: nat -> nat)
      requires Conserved() && RawIs() && CaughtUp(done) && Admitted() && StreamIs()
      requires forall i: nat :: ToInt(spanBatch(i)) > 0 && msgBatch(i) > 0
      modifies this`raw, this`waiting, this`returned, this`undecoded, this`done, decoder, ring, ring.buffer
      modifies engine`log, engine`fillsExecuted, engine`ordersRejected, engine`leaked, engine`vals, engine`model, engine`clock
      modifies engine`ordersProcessed, engine.pool, engine.pool.storage, engine.books.Values
      ensures engine.Valid() && done == |all| && raw == [] && Conserved()
      ensures var o := Run(start, Stamp(all, clock, 0)); engine.model == o.state && engine.log == startLog + o.reports
    {
      TakeTurns(spanBatch, msgBatch, 0);
      OpenCaughtUp(|all|);
      CameThrough(start, startClock, stream, startLog, engine.model, engine.log);
    }
  }

  /** From encoded messages to reports: however the client groups its messages into received
      spans, however large the ring is, and whatever batch sizes decoder and engine use from turn
      to turn, the engine ends with the books and the reports of the messages sent, in order. */
  method EndToEnd(d: Decoder, e: MatchingEngine, k: nat, readings: nat -> nat, groups: seq<seq<Msg>>, ids: seq<nat>,
                  spanBatch: nat -> nat, msgBatch: nat -> nat)
    requires e.Valid() && k < 64 && |ids| == |groups| && AllSendable(groups)
    requires AdmissibleRun(e.model, Stamp(Concat(groups), readings, 0))
    requires RunLaws.Monotone(e.clock, Stamp(Concat(groups), readings, 0))
    requires forall i: nat :: ToInt(spanBatch(i)) > 0 && msgBatch(i) > 0
    modifies d, e`log, e`fillsExecuted, e`ordersRejected, e`leaked, e`vals, e`model, e`clock, e`ordersProcessed
    modifies e.pool, e.pool.storage, e.books.Values
    ensures e.Valid()
    ensures var o := Run(old(e.model), Stamp(Concat(groups), readings, 0));
      e.model == o.state && e.log == old(e.log) + o.reports
  {
    var path := new Pipeline(d, e, k, readings, groups, ids);
    path.Serve(spanBatch, msgBatch);
  }

  /** Something waiting, or indices apart, means messages the engine has not had. */
  lemma {:induction false} NotDone<T>(all: seq<T>, pushed: seq<T>, popped: seq<T>, waiting: seq<T>, rest: seq<T>)
    requires all == pushed + waiting + rest && |popped| <= |pushed|
    ensures waiting != [] || Wrap(|popped|) != Wrap(|pushed|) ==> |popped| < |all|
  {
  }

  /** Equal indices mean an empty ring. */
  lemma {:induction false} AllDone<T>(all: seq<T>, pushed: seq<T>, popped: seq<T>, k: nat)
    requires k < 64 && |popped| <= |pushed| <= |popped| + Pow2(k) && popped == pushed[..|popped|]
    requires Wrap(|popped|) == Wrap(|pushed|)
    ensures popped == pushed
  {
    RingFits(k);
    TestsWrapped(|pushed|, |popped|, Pow2(k));
  }

  lemma {:induction false} MoveOne<T>(pushed: seq<T>, waiting: seq<T>, rest: seq<T>)
    requires waiting != []
    ensures pushed + waiting + rest == (pushed + [waiting[0]]) + waiting[1..] + rest
  {
    assert waiting == [waiting[0]] + waiting[1..];
    AppendTwice(pushed, [waiting[0]], waiting[1..]);
  }

  lemma {:induction false} Shift<T>(pushed: seq<T>, waiting: seq<T>, more: seq<T>, rest: seq<T>)
    ensures pushed + waiting + (more + rest) == pushed + (waiting + more) + rest
  {
  }

  lemma {:induction false} GatheredParts<T>(read: seq<Byte> -> seq<T>, raw: seq<RawByteSpan>, n: nat)
    requires n <= |raw|
    ensures Gathered(read, raw) == Gathered(read, raw[..n]) + Gathered(read, raw[n..])
  {
    GatheredAppend(read, raw[..n], raw[n..]);
    assert raw[..n] + raw[n..] == raw;
  }

  /** What was popped is the next stretch of the stream. */
  lemma {:induction false} BatchIs<T>(all: seq<T>, pushed: seq<T>, popped: seq<T>, done: nat, batch: seq<T>)
    requires pushed <= all && popped <= pushed && |popped| == done + |batch| && popped[done..] == batch
    ensures done + |batch| <= |all| && all[done..done + |batch|] == batch
  {
  }
}
