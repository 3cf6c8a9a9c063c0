/** Byte streams cut into frames, and what each frame means. */
module Framing {
  import opened Types
  import opened Folding
  import opened Wire

  /** The header's length and type fields. */
  function LenOf(b: seq<Byte>): nat
    requires |b| >= 4
  {
    b[2] as int + 256 * (b[3] as int)
  }

  function TypeOf(b: seq<Byte>): nat
    requires |b| >= 4
  {
    b[0] as int + 256 * (b[1] as int)
  }

  // ------------------------------------------------------------------- framing

  /** A stream: complete frames, then the bytes the loop stops at. */
  datatype Stream = Stream(frames: seq<seq<Byte>>, tail: seq<Byte>)

  predicate Framed(f: seq<Byte>) {
    |f| >= 4 && LenOf(f) == |f|
  }

  /** No frame starts here: too short for a header, or a length that is below the header's
      size or runs past the end. */
  predicate Stuck(b: seq<Byte>) {
    |b| < 4 || LenOf(b) < 4 || LenOf(b) > |b|
  }

  ghost predicate AllFramed(frames: seq<seq<Byte>>) {
    forall i :: 0 <= i < |frames| ==> Framed(frames[i])
  }

  /** The bytes are these frames followed by a tail at which the loop stops. */
  ghost predicate IsStream(b: seq<Byte>, s: Stream) {
    b == Concat(s.frames) + s.tail && AllFramed(s.frames) && Stuck(s.tail)
  }

  function Split(b: seq<Byte>): Stream {
    if Stuck(b) then Stream([], b)
    else
      var n := LenOf(b);
      var more := Split(b[n..]);
      Stream([b[..n]] + more.frames, more.tail)
  }

  lemma {:induction false} SplitIsStream(b: seq<Byte>)
    ensures IsStream(b, Split(b))
    decreases |b|
  {
    if !Stuck(b) {
      var n := LenOf(b);
      SplitIsStream(b[n..]);
      var more := Split(b[n..]);
      assert Split(b).frames[1..] == more.frames;
      assert b == b[..n] + b[n..];
    }
  }

  /** A frame at the front is the frame `Split` takes. */
  lemma {:induction false} SplitFrame(f: seq<Byte>, b: seq<Byte>)
    requires Framed(f)
    ensures var more := Split(b); Split(f + b) == Stream([f] + more.frames, more.tail)
  {
    var all := f + b;
    assert all[..|f|] == f && all[|f|..] == b;
  }

  lemma {:induction false} StreamIsUnique(b: seq<Byte>, s: Stream)
    requires IsStream(b, s)
    ensures Split(b) == s
    decreases |s.frames|
  {
    if s.frames == [] {
      assert b == s.tail;
    } else {
      var f, more := s.frames[0], Stream(s.frames[1..], s.tail);
      assert b == f + (Concat(more.frames) + s.tail);
      StreamIsUnique(Concat(more.frames) + s.tail, more);
      SplitFrame(f, Concat(more.frames) + s.tail);
    }
  }

  /** There is exactly one way to read bytes as frames and a tail, and `Split` finds it. */
  lemma {:induction false} SplitCharacterised(b: seq<Byte>, s: Stream)
    ensures IsStream(b, s) <==> s == Split(b)
  {
    SplitIsStream(b);
    if IsStream(b, s) { StreamIsUnique(b, s); }
  }

  /** The frames of the first piece, then whatever its tail and the second piece make together. */
  lemma {:induction false} SplitJoins(a: seq<Byte>, b: seq<Byte>)
    ensures var s, t := Split(a), Split(Split(a).tail + b); Split(a + b) == Stream(s.frames + t.frames, t.tail)
  {
    var s := Split(a);
    var t := Split(s.tail + b);
    SplitIsStream(a);
    SplitIsStream(s.tail + b);
    JoinedStream(s, t, a, b);
    StreamIsUnique(a + b, Stream(s.frames + t.frames, t.tail));
  }

  lemma {:induction false} JoinedStream(s: Stream, t: Stream, a: seq<Byte>, b: seq<Byte>)
    requires IsStream(a, s) && IsStream(s.tail + b, t)
    ensures IsStream(a + b, Stream(s.frames + t.frames, t.tail))
  {
    ConcatAppend(s.frames, t.frames);
    AppendTwice(Concat(s.frames), s.tail, b);
    AppendTwice(Concat(s.frames), Concat(t.frames), t.tail);
  }

  /** Cutting the bytes where a frame ends changes nothing. */
  lemma {:induction false} SplitAtBoundary(a: seq<Byte>, b: seq<Byte>)
    requires Split(a).tail == []
    ensures Split(a + b) == Stream(Split(a).frames + Split(b).frames, Split(b).tail)
  {
    SplitIsStream(a);
    SplitIsStream(b);
    assert Split(a).tail + b == b;
    JoinedStream(Split(a), Split(b), a, b);
    StreamIsUnique(a + b, Stream(Split(a).frames + Split(b).frames, Split(b).tail));
  }

  // ---------------------------------------------------- reading frame by frame

  function Listed<T>(o: Option<T>): seq<T> {
    if o.Some? then [o.value] else []
  }

  /** What `read` finds in the frames, in order. */
  function Collect<T>(read: seq<Byte> -> Option<T>, frames: seq<seq<Byte>>): seq<T> {
    if frames == [] then [] else Listed(read(frames[0])) + Collect(read, frames[1..])
  }

  function CountOf(odd: seq<Byte> -> bool, frames: seq<seq<Byte>>): nat {
    if frames == [] then 0 else (if odd(frames[0]) then 1 else 0) + CountOf(odd, frames[1..])
  }

  /** Odd frames, and a tail that is long enough to have a bad length. */
  function Mistakes(odd: seq<Byte> -> bool, b: seq<Byte>): nat {
    CountOf(odd, Split(b).frames) + if |Split(b).tail| >= 4 then 1 else 0
  }

  lemma {:induction false} CollectAppend<T>(read: seq<Byte> -> Option<T>, a: seq<seq<Byte>>, b: seq<seq<Byte>>)
    ensures Collect(read, a + b) == Collect(read, a) + Collect(read, b)
  {
    if a == [] {
      assert a + b == b;
    } else {
      assert (a + b)[1..] == a[1..] + b;
      CollectAppend(read, a[1..], b);
    }
  }

  lemma {:induction false} CountAppend(odd: seq<Byte> -> bool, a: seq<seq<Byte>>, b: seq<seq<Byte>>)
    ensures CountOf(odd, a + b) == CountOf(odd, a) + CountOf(odd, b)
  {
    if a == [] {
      assert a + b == b;
    } else {
      assert (a + b)[1..] == a[1..] + b;
      CountAppend(odd, a[1..], b);
    }
  }

  /** Spans cut at frame boundaries read as the whole stream does. */
  lemma {:induction false} CutAtBoundary<T>(read: seq<Byte> -> Option<T>, odd: seq<Byte> -> bool, a: seq<Byte>, b: seq<Byte>)
    requires Split(a).tail == []
    ensures Collect(read, Split(a + b).frames) == Collect(read, Split(a).frames) + Collect(read, Split(b).frames)
    ensures Mistakes(odd, a + b) == Mistakes(odd, a) + Mistakes(odd, b)
  {
    SplitAtBoundary(a, b);
    CollectAppend(read, Split(a).frames, Split(b).frames);
    CountAppend(odd, Split(a).frames, Split(b).frames);
  }

  /** The first frame, then the rest. */
  lemma {:induction false} FirstFrame<T>(read: seq<Byte> -> Option<T>, odd: seq<Byte> -> bool, f: seq<Byte>, more: seq<Byte>)
    requires Framed(f)
    ensures Collect(read, Split(f + more).frames) == Listed(read(f)) + Collect(read, Split(more).frames)
    ensures Mistakes(odd, f + more) == (if odd(f) then 1 else 0) + Mistakes(odd, more)
    ensures Split(f + more).tail == Split(more).tail
  {
    SplitFrame(f, more);
    assert Split(f + more).frames[1..] == Split(more).frames;
  }

  lemma {:induction false} NoFrame<T>(read: seq<Byte> -> Option<T>, odd: seq<Byte> -> bool, b: seq<Byte>)
    requires Stuck(b)
    ensures Collect(read, Split(b).frames) == [] && Mistakes(odd, b) == if |b| >= 4 then 1 else 0
  {
  }

  /** Frames that each say one item, read back. */
  lemma {:induction false} CollectAll<T>(read: seq<Byte> -> Option<T>, odd: seq<Byte> -> bool, frames: seq<seq<Byte>>, items: seq<T>)
    requires AllFramed(frames) && |frames| == |items|
    requires forall i :: 0 <= i < |frames| ==> read(frames[i]) == Some(items[i]) && !odd(frames[i])
    ensures Collect(read, frames) == items && CountOf(odd, frames) == 0
  {
    if frames != [] {
      CollectAll(read, odd, frames[1..], items[1..]);
    }
  }

  // ------------------------------------------------------------------ meaning

  /** What the fields of a `WireNewOrder` say. */
  function NewOrderOf(f: seq<nat>): Msg
    requires Fits(f, WIRE_NEW_ORDER)
  {
    Places();
    assert f[5] < Place(8) && f[6] < Place(4);
    Msg(NEW_ORDER, f[3], Signed(f[5]), f[6], f[2], f[4], f[7], f[8])
  }

  function CancelOf(f: seq<nat>): Msg
    requires Fits(f, WIRE_CANCEL_ORDER)
  {
    Msg(CANCEL, f[3], 0, 0, f[2], 0, 0, 0)
  }

  function ParseNewOrder(b: seq<Byte>): Option<Msg> {
    if |b| < Size(WIRE_NEW_ORDER) then None
    else UnpackFits(b, WIRE_NEW_ORDER); Some(NewOrderOf(Unpack(b, WIRE_NEW_ORDER)))
  }

  function ParseCancelOrder(b: seq<Byte>): Option<Msg> {
    if |b| < Size(WIRE_CANCEL_ORDER) then None
    else UnpackFits(b, WIRE_CANCEL_ORDER); Some(CancelOf(Unpack(b, WIRE_CANCEL_ORDER)))
  }

  /** The message of one frame, if it has one: a frame of a known type that is too short for
      its struct has none, and neither has a frame of an unknown type. */
  function Parse(f: seq<Byte>): Option<Msg> {
    if |f| < 4 then None
    else if TypeOf(f) == TYPE_NEW_ORDER then ParseNewOrder(f)
    else if TypeOf(f) == TYPE_CANCEL_ORDER then ParseCancelOrder(f)
    else None
  }

  predicate Unknown(f: seq<Byte>) {
    |f| >= 4 && TypeOf(f) != TYPE_NEW_ORDER && TypeOf(f) != TYPE_CANCEL_ORDER
  }

  function Decoded(b: seq<Byte>): seq<Msg> {
    Collect(Parse, Split(b).frames)
  }

  /** One error per frame of unknown type, and one more for a bad length. */
  function Errors(b: seq<Byte>): nat {
    Mistakes(Unknown, b)
  }

  /** Spans cut at frame boundaries decode to what the whole stream decodes to. */
  lemma {:induction false} SpansAreTransparent(a: seq<Byte>, b: seq<Byte>)
    requires Split(a).tail == []
    ensures Decoded(a + b) == Decoded(a) + Decoded(b)
    ensures Errors(a + b) == Errors(a) + Errors(b)
  {
    CutAtBoundary(Parse, Unknown, a, b);
  }

  // -------------------------------------------------------------- round trips

  /** A new order or a cancel whose fields fit their wire widths; a cancel carries nothing
      but the instrument and the id. */
  ghost predicate Sendable(m: Msg) {
    && m.orderId < TWO_64 && m.instrumentId < TWO_32
    && if m.kind == NEW_ORDER then
         m.clientId < TWO_64 && -TWO_63 <= m.price < TWO_63 && m.side < 256 && m.orderType < 256
       else
         m == Msg(CANCEL, m.orderId, 0, 0, m.instrumentId, 0, 0, 0)
  }

  function NewOrderFields(m: Msg): (f: seq<nat>)
    ensures |f| == 10
  {
    [TYPE_NEW_ORDER, 40, m.instrumentId, m.orderId, m.clientId, Unsigned(m.price), m.quantity, m.side, m.orderType, 0]
  }

  function CancelFields(m: Msg): (f: seq<nat>)
    ensures |f| == 4
  {
    [TYPE_CANCEL_ORDER, 16, m.instrumentId, m.orderId]
  }

  function Encode(m: Msg): seq<Byte> {
    if m.kind == NEW_ORDER then Pack(NewOrderFields(m), WIRE_NEW_ORDER)
    else Pack(CancelFields(m), WIRE_CANCEL_ORDER)
  }

  lemma {:induction false} TwoBytes(b: seq<Byte>)
    requires |b| == 2
    ensures Value(b) == b[0] as int + 256 * (b[1] as int)
  {
    assert Value(b[1..]) == b[1] as int by { assert b[1..][1..] == []; }
  }

  /** The first two fields of any struct are the header. */
  lemma {:induction false} HeaderIs(b: seq<Byte>, ws: Layout)
    requires |ws| >= 2 && ws[0] == 2 && ws[1] == 2 && |b| >= Size(ws) && |b| >= 4
    ensures TypeOf(b) == Unpack(b, ws)[0] && LenOf(b) == Unpack(b, ws)[1]
  {
    TwoBytes(b[..2]);
    TwoBytes(b[2..][..2]);
    assert Unpack(b, ws)[1] == Unpack(b[2..], ws[1..])[0];
  }

  /** A packed struct whose length field is its size is a frame, and reads back. */
  lemma {:induction false} PackedFrame(f: seq<nat>, ws: Layout, more: seq<Byte>)
    requires Fits(f, ws) && |ws| >= 2 && ws[0] == 2 && ws[1] == 2 && Size(ws) >= 4
    ensures var b := Pack(f, ws) + more;
      |Pack(f, ws)| == Size(ws) && Unpack(b, ws) == f && TypeOf(b) == f[0] && LenOf(b) == f[1]
  {
    UnpackPack(f, ws, more);
    HeaderIs(Pack(f, ws) + more, ws);
  }

  lemma {:induction false} NewOrderFits(m: Msg)
    requires Sendable(m) && m.kind == NEW_ORDER
    ensures Fits(NewOrderFields(m), WIRE_NEW_ORDER) && NewOrderOf(NewOrderFields(m)) == m
  {
    Places();
    SignedRoundTrip(m.price, 0);
  }

  lemma {:induction false} NewOrderRoundTrip(m: Msg)
    requires Sendable(m) && m.kind == NEW_ORDER
    ensures var b := Encode(m); |b| == 40 && Framed(b) && TypeOf(b) == TYPE_NEW_ORDER && ParseNewOrder(b) == Some(m)
  {
    Sizes();
    NewOrderFits(m);
    PackedFrame(NewOrderFields(m), WIRE_NEW_ORDER, []);
    assert Encode(m) + [] == Encode(m);
  }

  lemma {:induction false} CancelFits(m: Msg)
    requires Sendable(m) && m.kind == CANCEL
    ensures Fits(CancelFields(m), WIRE_CANCEL_ORDER) && CancelOf(CancelFields(m)) == m
  {
    Places();
  }

  lemma {:induction false} CancelRoundTrip(m: Msg)
    requires Sendable(m) && m.kind == CANCEL
    ensures var b := Encode(m); |b| == 16 && Framed(b) && TypeOf(b) == TYPE_CANCEL_ORDER && ParseCancelOrder(b) == Some(m)
  {
    Sizes();
    CancelFits(m);
    PackedFrame(CancelFields(m), WIRE_CANCEL_ORDER, []);
    assert Encode(m) + [] == Encode(m);
  }

  /** One message, encoded, is one frame that says that message. */
  lemma {:induction false} MessageRoundTrip(m: Msg)
    requires Sendable(m)
    ensures Framed(Encode(m)) && Parse(Encode(m)) == Some(m) && !Unknown(Encode(m))
  {
    if m.kind == NEW_ORDER { NewOrderRoundTrip(m); } else { CancelRoundTrip(m); }
  }

  function Encodings(ms: seq<Msg>): (frames: seq<seq<Byte>>)
    ensures |frames| == |ms|
  {
    seq(|ms|, i requires 0 <= i < |ms| => Encode(ms[i]))
  }

  /** Decoding the concatenated encodings of any list of orders and cancels yields that list,
      with no error. */
  lemma {:induction false} EncodedStreamDecodes(ms: seq<Msg>)
    requires forall i :: 0 <= i < |ms| ==> Sendable(ms[i])
    ensures Decoded(Concat(Encodings(ms))) == ms && Errors(Concat(Encodings(ms))) == 0
    ensures Split(Concat(Encodings(ms))).tail == []
  {
    var frames := Encodings(ms);
    forall i | 0 <= i < |ms|
      ensures Framed(frames[i]) && Parse(frames[i]) == Some(ms[i]) && !Unknown(frames[i])
    {
      MessageRoundTrip(ms[i]);
    }
    assert Concat(frames) == Concat(frames) + [];
    StreamIsUnique(Concat(frames), Stream(frames, []));
    CollectAll(Parse, Unknown, frames, ms);
  }

  /** Packing is one-to-one on fields that fit. */
  lemma {:induction false} PackInjective(f: seq<nat>, g: seq<nat>, ws: Layout)
    requires Fits(f, ws) && Fits(g, ws) && Pack(f, ws) == Pack(g, ws)
    ensures f == g
  {
    UnpackPack(f, ws, []);
    UnpackPack(g, ws, []);
  }

  lemma {:induction false} FieldsOfNewOrder(f: seq<nat>)
    requires Fits(f, WIRE_NEW_ORDER) && f[0] == TYPE_NEW_ORDER
    ensures Sendable(NewOrderOf(f))
    ensures NewOrderFields(NewOrderOf(f)) == f <==> f[1] == 40 && f[9] == 0
  {
    Places();
    assert f[2] < Place(4) && f[3] < Place(8) && f[4] < Place(8) && f[5] < Place(8) && f[7] < Place(1) && f[8] < Place(1);
    SignedRoundTrip(0, f[5]);
    assert NewOrderFields(NewOrderOf(f)) == f[1 := 40][9 := 0];
    assert f[1] == 40 && f[9] == 0 ==> f[1 := 40][9 := 0] == f;
    assert f[1 := 40][9 := 0][1] == 40 && f[1 := 40][9 := 0][9] == 0;
  }

  /** Encoding a decoded order gives back its 40 bytes exactly when the frame's length field is
      40 and its padding is zero; everything else survives. */
  lemma {:induction false} NewOrderBytesSurvive(b: seq<Byte>)
    requires |b| >= 40 && TypeOf(b) == TYPE_NEW_ORDER
    ensures ParseNewOrder(b).Some? && Sendable(ParseNewOrder(b).value)
    ensures Encode(ParseNewOrder(b).value) == b[..40] <==> LenOf(b) == 40 && Value(b[38..40]) == 0
  {
    Sizes();
    UnpackFits(b, WIRE_NEW_ORDER);
    var f := Unpack(b, WIRE_NEW_ORDER);
    HeaderIs(b, WIRE_NEW_ORDER);
    PaddingIs(b);
    FieldsOfNewOrder(f);
    PackUnpack(b, WIRE_NEW_ORDER);
    NewOrderFits(NewOrderOf(f));
    if Encode(NewOrderOf(f)) == b[..40] {
      PackInjective(NewOrderFields(NewOrderOf(f)), f, WIRE_NEW_ORDER);
    }
  }

  lemma {:induction false} PaddingIs(b: seq<Byte>)
    requires |b| >= Size(WIRE_NEW_ORDER) && |b| >= 40
    ensures Unpack(b, WIRE_NEW_ORDER)[9] == Value(b[38..40])
  {
    Sizes();
    LastField(b, [2, 2, 4, 8, 8, 8, 4, 1, 1], 2, WIRE_NEW_ORDER);
  }

  /** The last field lies behind the others. */
  lemma {:induction false} LastField(b: seq<Byte>, ws: Layout, w: nat, all: Layout)
    requires all == ws + [w] && |b| >= Size(all)
    ensures Size(all) == Size(ws) + w
    ensures Unpack(b, all)[|ws|] == Value(b[Size(ws)..Size(all)])
  {
    SizeAdds(ws, [w]);
    Wider(w, [], [w]);
    var x, rest := b[..Size(ws)], b[Size(ws)..];
    UnpackParts(x, rest, ws, [w]);
    assert b == x + rest;
    assert Unpack(rest, [w])[0] == Value(rest[..w]);
    assert rest[..w] == b[Size(ws)..Size(ws) + w];
  }

  // -------------------------------------------------------- execution reports

  /** An execution report on its way out; `kind` is the raw byte. */
  datatype ExecReport = ExecReport(
    kind: nat, orderId: nat, counterpart: nat, price: int, quantity: nat, leaves: nat, time: nat)

  ghost predicate Reportable(r: ExecReport) {
    && r.kind < 256 && r.orderId < TWO_64 && r.counterpart < TWO_64 && -TWO_63 <= r.price < TWO_63
    && r.quantity < TWO_32 && r.leaves < TWO_32 && r.time < TWO_64
  }

  function ReportFields(r: ExecReport): (f: seq<nat>)
    ensures |f| == 10
  {
    [TYPE_EXEC_REPORT, 48, r.kind, 0, r.orderId, r.counterpart, Unsigned(r.price), r.quantity, r.leaves, r.time]
  }

  function EncodeExecReport(r: ExecReport): seq<Byte> {
    Pack(ReportFields(r), WIRE_EXEC_REPORT)
  }

  function ReportOf(f: seq<nat>): ExecReport
    requires Fits(f, WIRE_EXEC_REPORT)
  {
    Places();
    assert f[6] < Place(8);
    ExecReport(f[2], f[4], f[5], Signed(f[6]), f[7], f[8], f[9])
  }

  function DecodeExecReport(b: seq<Byte>): Option<ExecReport> {
    if |b| < Size(WIRE_EXEC_REPORT) then None
    else
      UnpackFits(b, WIRE_EXEC_REPORT);
      var f := Unpack(b, WIRE_EXEC_REPORT);
      if f[0] != TYPE_EXEC_REPORT then None else Some(ReportOf(f))
  }

  lemma {:induction false} ReportFits(r: ExecReport)
    requires Reportable(r)
    ensures Fits(ReportFields(r), WIRE_EXEC_REPORT) && ReportOf(ReportFields(r)) == r
  {
    Places();
    SignedRoundTrip(r.price, 0);
  }

  lemma {:induction false} FieldsOfReport(f: seq<nat>)
    requires Fits(f, WIRE_EXEC_REPORT)
    ensures Reportable(ReportOf(f))
  {
    Places();
    assert f[2] < Place(1) && f[4] < Place(8) && f[5] < Place(8) && f[6] < Place(8);
    assert f[7] < Place(4) && f[8] < Place(4) && f[9] < Place(8);
  }

  /** Any report survives encoding, whatever follows it in the buffer. */
  lemma {:induction false} ExecReportRoundTrip(r: ExecReport, more: seq<Byte>)
    requires Reportable(r)
    ensures |EncodeExecReport(r)| == 48
    ensures DecodeExecReport(EncodeExecReport(r) + more) == Some(r)
  {
    Sizes();
    ReportFits(r);
    PackedFrame(ReportFields(r), WIRE_EXEC_REPORT, more);
  }

  /** Decoding refuses exactly buffers that are too short or of another type. */
  lemma {:induction false} ExecReportRefused(b: seq<Byte>)
    ensures DecodeExecReport(b).None? <==> |b| < 48 || TypeOf(b) != TYPE_EXEC_REPORT
    ensures DecodeExecReport(b).Some? ==> Reportable(DecodeExecReport(b).value)
  {
    Sizes();
    if |b| >= 48 {
      HeaderIs(b, WIRE_EXEC_REPORT);
      UnpackFits(b, WIRE_EXEC_REPORT);
      FieldsOfReport(Unpack(b, WIRE_EXEC_REPORT));
    }
  }
}
