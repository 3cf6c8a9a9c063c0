/** Where a byte stream may be cut into received spans.  The decoder keeps no state between
    spans, so exactly the cuts at the end of a frame are harmless. */
module Cuts {
  import opened Types
  import opened Folding
  import opened Wire
  import opened Framing

  lemma {:induction false} ReadingJoins<T>(read: seq<Byte> -> Option<T>, odd: seq<Byte> -> bool, a: seq<Byte>, b: seq<Byte>)
    ensures var t := Split(a).tail;
      && Collect(read, Split(a + b).frames) == Collect(read, Split(a).frames) + Collect(read, Split(t + b).frames)
      && Mistakes(odd, a + b) + (if |t| >= 4 then 1 else 0) == Mistakes(odd, a) + Mistakes(odd, t + b)
  {
    SplitJoins(a, b);
    CollectAppend(read, Split(a).frames, Split(Split(a).tail + b).frames);
    CountAppend(odd, Split(a).frames, Split(Split(a).tail + b).frames);
  }

  /** Decoding the two pieces separately is decoding them together. */
  ghost predicate CutOk(a: seq<Byte>, b: seq<Byte>) {
    Decoded(a + b) == Decoded(a) + Decoded(b) && Errors(a + b) == Errors(a) + Errors(b)
  }

  /** What a harmless cut says about the first piece's tail. */
  lemma {:induction false} TailMatters(a: seq<Byte>, b: seq<Byte>)
    requires CutOk(a, b)
    ensures Decoded(Split(a).tail + b) == Decoded(b)
  {
    ReadingJoins(Parse, Unknown, a, b);
    SamePrefix(Decoded(a), Decoded(Split(a).tail + b), Decoded(b));
  }

  lemma {:induction false} SamePrefix<T>(p: seq<T>, x: seq<T>, y: seq<T>)
    requires p + x == p + y
    ensures x == y
  {
    assert x == (p + x)[|p|..] && y == (p + y)[|p|..];
  }

  // --------------------------------------------------------- losing continuations

  function Zeros(n: nat): (z: seq<Byte>)
    ensures |z| == n
  {
    seq(n, _ => 0)
  }

  /** The bytes of some cancel: one frame, and a message in it. */
  ghost predicate CancelBytes(c: seq<Byte>) {
    |c| == 16 && c[0] == 2 && c[1] == 0 && c[2] == 16 && c[3] == 0 && Decoded(c) != []
  }

  lemma {:induction false} CancelHeader(m: Msg)
    requires Sendable(m) && m.kind == CANCEL
    ensures CancelBytes(Encode(m))
  {
    CancelRoundTrip(m);
    EncodedDecodes(m);
    HeaderBytes(Encode(m));
  }

  lemma {:induction false} HeaderBytes(c: seq<Byte>)
    requires |c| == 16 && LenOf(c) == 16 && TypeOf(c) == TYPE_CANCEL_ORDER
    ensures c[0] == 2 && c[1] == 0 && c[2] == 16 && c[3] == 0
  {
  }

  lemma {:induction false} EncodedDecodes(m: Msg)
    requires Sendable(m)
    ensures Framed(Encode(m)) && Decoded(Encode(m)) == [m]
  {
    var f := Encode(m);
    MessageRoundTrip(m);
    FirstFrame(Parse, Unknown, f, []);
    NoFrame(Parse, Unknown, []);
    assert f + [] == f;
  }

  /** `pad` completes the tail to a frame, and is no frame's beginning on its own. */
  lemma {:induction false} PadLoses(t: seq<Byte>, pad: seq<Byte>, c: seq<Byte>)
    requires CancelBytes(c) && Framed(t + pad) && Stuck(pad + c)
    ensures Decoded(t + (pad + c)) != Decoded(pad + c)
  {
    AppendTwice(t, pad, c);
    FirstFrame(Parse, Unknown, t + pad, c);
    NoFrame(Parse, Unknown, pad + c);
  }

  /** A tail whose length field is below the header's size swallows everything behind it. */
  lemma {:induction false} ShortLength(t: seq<Byte>, c: seq<Byte>)
    requires CancelBytes(c) && |t| >= 4 && LenOf(t) < 4
    ensures Decoded(t + c) != Decoded(c)
  {
    NoFrame(Parse, Unknown, t + c);
  }

  /** A frame that is not complete yet. */
  lemma {:induction false} MissingBytes(t: seq<Byte>, c: seq<Byte>)
    requires CancelBytes(c) && |t| >= 4 && LenOf(t) > |t|
    ensures var b := Zeros(LenOf(t) - |t|) + c; Decoded(t + b) != Decoded(b)
  {
    PadLoses(t, Zeros(LenOf(t) - |t|), c);
  }

  /** The missing rest of a header of which one to three bytes are there, and of its frame. */
  function RestOfFrame(t: seq<Byte>): seq<Byte>
    requires 1 <= |t| <= 3
  {
    if |t| == 1 then [1, 4, 0] else if |t| == 2 then [4, 0] else [1] + Zeros(t[2] as int + 252)
  }

  lemma {:induction false} MissingHeader(t: seq<Byte>, c: seq<Byte>)
    requires CancelBytes(c) && 1 <= |t| <= 3
    ensures var b := RestOfFrame(t) + c; Decoded(t + b) != Decoded(b)
  {
    PadLoses(t, RestOfFrame(t), c);
  }

  /** Something to send after a tail that is not empty. */
  function Continuation(t: seq<Byte>, c: seq<Byte>): seq<Byte>
    requires t != [] && Stuck(t)
  {
    if |t| < 4 then RestOfFrame(t) + c
    else if LenOf(t) < 4 then c
    else Zeros(LenOf(t) - |t|) + c
  }

  lemma {:induction false} TailBreaks(a: seq<Byte>, c: seq<Byte>)
    requires CancelBytes(c) && Split(a).tail != [] && Stuck(Split(a).tail)
    ensures !CutOk(a, Continuation(Split(a).tail, c))
  {
    var t := Split(a).tail;
    if |t| < 4 {
      MissingHeader(t, c);
    } else if LenOf(t) < 4 {
      ShortLength(t, c);
    } else {
      MissingBytes(t, c);
    }
    if CutOk(a, Continuation(t, c)) {
      TailMatters(a, Continuation(t, c));
    }
  }

  ghost predicate CutsHarmlessly(a: seq<Byte>) {
    forall b :: CutOk(a, b)
  }

  /** A stream may be cut after `a`, whatever follows, if and only if `a` ends where a frame ends. */
  lemma {:induction false} CutExactly(a: seq<Byte>)
    ensures CutsHarmlessly(a) <==> Split(a).tail == []
  {
    SplitIsStream(a);
    if Split(a).tail == [] {
      forall b ensures CutOk(a, b) {
        SpansAreTransparent(a, b);
      }
    } else {
      var m := Msg(CANCEL, 0, 0, 0, 0, 0, 0, 0);
      CancelHeader(m);
      TailBreaks(a, Encode(m));
    }
  }

  /** A message cut strictly inside its encoding: whole it decodes to itself, its first piece
      decodes to nothing, and some continuation goes wrong. */
  lemma {:induction false} CutMessageIsLost(m: Msg, i: nat)
    requires Sendable(m) && 0 < i < |Encode(m)|
    ensures Decoded(Encode(m)) == [m]
    ensures Decoded(Encode(m)[..i]) == [] && Errors(Encode(m)[..i]) == (if i >= 4 then 1 else 0)
    ensures !CutsHarmlessly(Encode(m)[..i])
  {
    EncodedDecodes(m);
    NoFrame(Parse, Unknown, Encode(m)[..i]);
    CutExactly(Encode(m)[..i]);
  }
}
