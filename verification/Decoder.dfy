/** The decoder thread: spans in, messages and freed buffer ids out. */
module Decoders {
  import opened Types
  import opened Wire
  import opened Folding
  import opened Framing

  /** Received bytes, or a null pointer, and the buffer they lie in. */
  datatype RawByteSpan = RawByteSpan(data: Option<seq<Byte>>, bufId: nat)

  function BytesOf(span: RawByteSpan): seq<Byte> {
    if span.data.Some? then span.data.value else []
  }

  function Gathered<T>(read: seq<Byte> -> seq<T>, spans: seq<RawByteSpan>): seq<T> {
    if spans == [] then []
    else Gathered(read, spans[..|spans| - 1]) + read(BytesOf(spans[|spans| - 1]))
  }

  function Summed(count: seq<Byte> -> nat, spans: seq<RawByteSpan>): nat {
    if spans == [] then 0
    else Summed(count, spans[..|spans| - 1]) + count(BytesOf(spans[|spans| - 1]))
  }

  /** What a list of spans decodes to; frames do not reach across spans. */
  function DecodedSpans(spans: seq<RawByteSpan>): seq<Msg> { Gathered(Decoded, spans) }

  function ErrorsIn(spans: seq<RawByteSpan>): nat { Summed(Errors, spans) }

  function BufIds(spans: seq<RawByteSpan>): (ids: seq<nat>)
    ensures |ids| == |spans|
  {
    seq(|spans|, i requires 0 <= i < |spans| => spans[i].bufId)
  }

  /** `static_cast<int>` of a `size_t`. */
  function ToInt(x: nat): int {
    var w := x % TWO_32;
    if w < 0x8000_0000 then w else w - TWO_32
  }

  /** The cast: a 32-bit two's complement value, the same modulo 2^32, and the same number when
      that fits. */
  lemma {:induction false} ToIntIs(x: nat)
    ensures -0x8000_0000 <= ToInt(x) < 0x8000_0000
    ensures (x - ToInt(x)) % 0x1_0000_0000 == 0
    ensures x < 0x8000_0000 ==> ToInt(x) == x
  {
    var q := x / TWO_32;
    assert x == q * TWO_32 + x % TWO_32;
    assert x - ToInt(x) == q * TWO_32 || x - ToInt(x) == (q + 1) * TWO_32;
  }

  class Decoder {
    var decodedCount: nat
    var errorCount: nat
    var spansSeen: nat

    constructor ()
      ensures decodedCount == 0 && errorCount == 0 && spansSeen == 0
    {
      decodedCount, errorCount, spansSeen := 0, 0, 0;
    }

    /** Parse one frame by its type; an unknown type is counted and skipped. */
    method DecodeFrame(frame: seq<Byte>) returns (got: seq<Msg>, ghost bad: nat)
      requires |frame| >= 4
      modifies this`decodedCount, this`errorCount
      ensures got == Listed(Parse(frame)) && bad == (if Unknown(frame) then 1 else 0)
      ensures decodedCount == old(decodedCount) + |got| && errorCount == old(errorCount) + bad
    {
      var ok := None;
      bad := 0;
      if TypeOf(frame) == TYPE_NEW_ORDER {
        ok := ParseNewOrder(frame);
      } else if TypeOf(frame) == TYPE_CANCEL_ORDER {
        ok := ParseCancelOrder(frame);
      } else {
        errorCount, bad := errorCount + 1, 1;
      }
      got := [];
      if ok.Some? {
        got := [ok.value];
        decodedCount := decodedCount + 1;
      }
    }

    /** Parse the frame at `ptr`, given how far the loop has come. */
    method DecodeNext(b: seq<Byte>, ptr: nat, len: nat, ghost msgs: seq<Msg>, ghost errs: nat)
        returns (got: seq<Msg>, ghost bad: nat)
      requires Reached(Parse, Unknown, b, ptr, msgs, errs)
      requires ptr <= |b| && !Stuck(b[ptr..]) && len == LenOf(b[ptr..]) && ptr + len <= |b|
      modifies this`decodedCount, this`errorCount
      ensures Reached(Parse, Unknown, b, ptr + len, msgs + got, errs + bad)
      ensures decodedCount == old(decodedCount) + |got| && errorCount == old(errorCount) + bad
    {
      var frame := b[ptr..ptr + len];
      got, bad := DecodeFrame(frame);
      FrameDone(Parse, Unknown, b, ptr, len, frame, msgs, errs, got, bad);
    }

    /** Parse every frame of the span, in order, onto the inbound queue. */
    method DecodeSpan(span: RawByteSpan, inbound: seq<Msg>) returns (count: nat, inbound': seq<Msg>)
      modifies this
      ensures inbound' == inbound + Decoded(BytesOf(span))
      ensures count == |Decoded(BytesOf(span))|
      ensures decodedCount == old(decodedCount) + count
      ensures errorCount == old(errorCount) + Errors(BytesOf(span))
      ensures spansSeen == old(spansSeen) + 1
    {
      spansSeen := spansSeen + 1;
      count, inbound' := 0, inbound;
      if span.data.None? || |span.data.value| == 0 {
        NoFrame(Parse, Unknown, []);
        return;
      }
      var b := span.data.value;
      var ptr := 0;
      ghost var errs := 0;
      ghost var msgs: seq<Msg> := [];
      ReachedStart(Parse, Unknown, b);
      while ptr + 4 <= |b|
        invariant 0 <= ptr <= |b|
        invariant spansSeen == old(spansSeen) + 1
        invariant count == |msgs| && inbound' == inbound + msgs
        invariant decodedCount == old(decodedCount) + count && errorCount == old(errorCount) + errs
        invariant Reached(Parse, Unknown, b, ptr, msgs, errs)
        decreases |b| - ptr
      {
        var len := LenOf(b[ptr..]);
        if len < 4 || len > |b| - ptr {
          ReachedEnd(Parse, Unknown, b, ptr, msgs, errs);
          errorCount := errorCount + 1;
          return;
        }
        var got, bad := DecodeNext(b, ptr, len, msgs, errs);
        AppendTwice(inbound, msgs, got);
        inbound', count := inbound' + got, count + |got|;
        errs, msgs := errs + bad, msgs + got;
        ptr := ptr + len;
      }
      ReachedEnd(Parse, Unknown, b, ptr, msgs, errs);
    }

    /** Decode the `n`-th span of a poll and hand its buffer back. */
    method PollOne(raw: seq<RawByteSpan>, n: nat, inbound: seq<Msg>, returns0: seq<nat>, ghost p0: Outputs<Msg>)
        returns (inbound': seq<Msg>, returns': seq<nat>)
      requires n < |raw| && Polled(Decoded, Errors, raw, n, p0, Outputs(inbound, returns0, decodedCount, errorCount, spansSeen))
      modifies this
      ensures Polled(Decoded, Errors, raw, n + 1, p0, Outputs(inbound', returns', decodedCount, errorCount, spansSeen))
    {
      ghost var p := Outputs(inbound, returns0, decodedCount, errorCount, spansSeen);
      var count, more := DecodeSpan(raw[n], inbound);
      inbound', returns' := more, returns0 + [raw[n].bufId];
      OneMoreSpan(Decoded, Errors, raw, n, p0, p, Outputs(inbound', returns', decodedCount, errorCount, spansSeen));
    }

    /** Decode up to `maxBatch` spans and hand their buffers back, in order. */
    method Poll(raw: seq<RawByteSpan>, inbound: seq<Msg>, returns0: seq<nat>, maxBatch: nat)
        returns (n: nat, raw': seq<RawByteSpan>, inbound': seq<Msg>, returns': seq<nat>)
      modifies this
      ensures n == if ToInt(maxBatch) <= 0 then 0 else Min(ToInt(maxBatch), |raw|)
      ensures raw' == raw[n..]
      ensures inbound' == inbound + DecodedSpans(raw[..n])
      ensures returns' == returns0 + BufIds(raw[..n])
      ensures decodedCount == old(decodedCount) + |DecodedSpans(raw[..n])|
      ensures errorCount == old(errorCount) + ErrorsIn(raw[..n]) && spansSeen == old(spansSeen) + n
    {
      n, raw', inbound', returns' := 0, raw, inbound, returns0;
      var limit := ToInt(maxBatch);
      ghost var p0 := Outputs(inbound, returns0, decodedCount, errorCount, spansSeen);
      NoSpans(Decoded, Errors, raw, p0);
      while n < limit && raw' != []
        invariant 0 <= n <= |raw| && (n == 0 || n <= limit)
        invariant raw' == raw[n..]
        invariant Polled(Decoded, Errors, raw, n, p0, Outputs(inbound', returns', decodedCount, errorCount, spansSeen))
        decreases |raw'|
      {
        inbound', returns' := PollOne(raw, n, inbound', returns', p0);
        raw' := raw'[1..];
        n := n + 1;
      }
      OpenPolled(Decoded, Errors, raw, n, p0, Outputs(inbound', returns', decodedCount, errorCount, spansSeen));
    }
  }

  /** The queues behind the decoder and its counters. */
  datatype Outputs<T> = Outputs(inbound: seq<T>, ids: seq<nat>, decoded: nat, errors: nat, spans: nat)

  // The clauses are named one by one so that the solver unfolds only those a proof asks for.
  datatype Share = MessageShare | IdShare | CountShare

  ghost predicate ShareOk<T>(
      c: Share, read: seq<Byte> -> seq<T>, count: seq<Byte> -> nat, raw: seq<RawByteSpan>, n: nat, p0: Outputs<T>, p: Outputs<T>)
  {
    && n <= |raw|
    && match c
       case MessageShare => p.inbound == p0.inbound + Gathered(read, raw[..n])
       case IdShare => p.ids == p0.ids + BufIds(raw[..n])
       case CountShare =>
         && p.decoded == p0.decoded + |Gathered(read, raw[..n])|
         && p.errors == p0.errors + Summed(count, raw[..n]) && p.spans == p0.spans + n
  }

  /** After `n` spans: the messages and buffer ids handed on, and the counts. */
  ghost predicate Polled<T>(
      read: seq<Byte> -> seq<T>, count: seq<Byte> -> nat, raw: seq<RawByteSpan>, n: nat, p0: Outputs<T>, p: Outputs<T>)
  {
    forall c {:trigger ShareOk(c, read, count, raw, n, p0, p)} :: ShareOk(c, read, count, raw, n, p0, p)
  }

  lemma {:induction false} OpenPolled<T>(
      read: seq<Byte> -> seq<T>, count: seq<Byte> -> nat, raw: seq<RawByteSpan>, n: nat, p0: Outputs<T>, p: Outputs<T>)
    requires Polled(read, count, raw, n, p0, p)
    ensures n <= |raw| && p.inbound == p0.inbound + Gathered(read, raw[..n]) && p.ids == p0.ids + BufIds(raw[..n])
    ensures p.decoded == p0.decoded + |Gathered(read, raw[..n])|
    ensures p.errors == p0.errors + Summed(count, raw[..n]) && p.spans == p0.spans + n
  {
    assert ShareOk(MessageShare, read, count, raw, n, p0, p) && ShareOk(IdShare, read, count, raw, n, p0, p);
    assert ShareOk(CountShare, read, count, raw, n, p0, p);
  }

  lemma {:induction false} NoSpans<T>(read: seq<Byte> -> seq<T>, count: seq<Byte> -> nat, raw: seq<RawByteSpan>, p: Outputs<T>)
    ensures Polled(read, count, raw, 0, p, p)
  {
    assert raw[..0] == [];
  }

  lemma {:induction false} OneMoreSpan<T>(
      read: seq<Byte> -> seq<T>, count: seq<Byte> -> nat, raw: seq<RawByteSpan>, n: nat,
      p0: Outputs<T>, p: Outputs<T>, p': Outputs<T>)
    requires n < |raw| && Polled(read, count, raw, n, p0, p)
    requires var b := BytesOf(raw[n]);
      p' == Outputs(p.inbound + read(b), p.ids + [raw[n].bufId], p.decoded + |read(b)|, p.errors + count(b), p.spans + 1)
    ensures Polled(read, count, raw, n + 1, p0, p')
  {
    OpenPolled(read, count, raw, n, p0, p);
    assert raw[..n + 1][..n] == raw[..n];
    AppendTwice(p0.inbound, Gathered(read, raw[..n]), read(BytesOf(raw[n])));
    AppendTwice(p0.ids, BufIds(raw[..n]), [raw[n].bufId]);
    assert BufIds(raw[..n + 1]) == BufIds(raw[..n]) + [raw[n].bufId];
  }

  // ----------------------------------------------------------- the loop's progress

  // The clauses are named one by one so that the solver unfolds only those a proof asks for.
  datatype Part = ItemsPart | ErrorsPart

  ghost predicate PartReached<T>(
      p: Part, read: seq<Byte> -> Option<T>, odd: seq<Byte> -> bool, b: seq<Byte>, ptr: nat, found: seq<T>, errs: nat)
  {
    && ptr <= |b|
    && match p
       case ItemsPart => Collect(read, Split(b).frames) == found + Collect(read, Split(b[ptr..]).frames)
       case ErrorsPart => Mistakes(odd, b) == errs + Mistakes(odd, b[ptr..])
  }

  /** Having consumed `b[..ptr]`, the loop has found these items and this many errors. */
  ghost predicate Reached<T>(
      read: seq<Byte> -> Option<T>, odd: seq<Byte> -> bool, b: seq<Byte>, ptr: nat, found: seq<T>, errs: nat)
  {
    forall p {:trigger PartReached(p, read, odd, b, ptr, found, errs)} :: PartReached(p, read, odd, b, ptr, found, errs)
  }

  lemma {:induction false} OpenReached<T>(
      read: seq<Byte> -> Option<T>, odd: seq<Byte> -> bool, b: seq<Byte>, ptr: nat, found: seq<T>, errs: nat)
    requires Reached(read, odd, b, ptr, found, errs)
    ensures ptr <= |b|
    ensures Collect(read, Split(b).frames) == found + Collect(read, Split(b[ptr..]).frames)
    ensures Mistakes(odd, b) == errs + Mistakes(odd, b[ptr..])
  {
    assert PartReached(ItemsPart, read, odd, b, ptr, found, errs);
    assert PartReached(ErrorsPart, read, odd, b, ptr, found, errs);
  }

  lemma {:induction false} ReachedStart<T>(read: seq<Byte> -> Option<T>, odd: seq<Byte> -> bool, b: seq<Byte>)
    ensures Reached(read, odd, b, 0, [], 0)
  {
    assert b[0..] == b;
  }

  lemma {:induction false} ReachedEnd<T>(
      read: seq<Byte> -> Option<T>, odd: seq<Byte> -> bool, b: seq<Byte>, ptr: nat, found: seq<T>, errs: nat)
    requires Reached(read, odd, b, ptr, found, errs) && ptr <= |b| && Stuck(b[ptr..])
    ensures Collect(read, Split(b).frames) == found
    ensures Mistakes(odd, b) == errs + if |b| - ptr >= 4 then 1 else 0
  {
    OpenReached(read, odd, b, ptr, found, errs);
    NoFrame(read, odd, b[ptr..]);
  }

  lemma {:induction false} SuffixParts<T>(b: seq<T>, i: nat, n: nat)
    requires i + n <= |b|
    ensures b[i..][..n] == b[i..i + n] && b[i..][n..] == b[i + n..] && b[i..] == b[i..i + n] + b[i + n..]
  {
  }

  /** The loop skips a frame by its length field. */
  lemma {:induction false} ReachedStep<T>(
      read: seq<Byte> -> Option<T>, odd: seq<Byte> -> bool, b: seq<Byte>, ptr: nat, found: seq<T>, errs: nat)
    requires Reached(read, odd, b, ptr, found, errs) && ptr <= |b| && !Stuck(b[ptr..])
    ensures var len := LenOf(b[ptr..]); 4 <= len <= |b| - ptr && var f := b[ptr..ptr + len];
      Reached(read, odd, b, ptr + len, found + Listed(read(f)), errs + if odd(f) then 1 else 0)
  {
    OpenReached(read, odd, b, ptr, found, errs);
    var len := LenOf(b[ptr..]);
    var f := b[ptr..ptr + len];
    SuffixParts(b, ptr, len);
    FirstFrame(read, odd, f, b[ptr + len..]);
    AppendTwice(found, Listed(read(f)), Collect(read, Split(b[ptr + len..]).frames));
  }

  lemma {:induction false} FrameDone<T>(
      read: seq<Byte> -> Option<T>, odd: seq<Byte> -> bool,
      b: seq<Byte>, ptr: nat, len: nat, f: seq<Byte>, found: seq<T>, errs: nat, got: seq<T>, bad: nat)
    requires Reached(read, odd, b, ptr, found, errs)
    requires ptr <= |b| && !Stuck(b[ptr..]) && len == LenOf(b[ptr..]) && ptr + len <= |b| && f == b[ptr..ptr + len]
    requires got == Listed(read(f)) && bad == if odd(f) then 1 else 0
    ensures Reached(read, odd, b, ptr + len, found + got, errs + bad)
  {
    ReachedStep(read, odd, b, ptr, found, errs);
  }
}
