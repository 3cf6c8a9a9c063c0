/** The receive buffers seen by the decoder: what the kernel delivered, as spans. */
module Reception {
  import opened Types
  import opened Folding
  import opened Wire
  import Framing
  import opened Decoders
  import Buffers
  import Pipelines

  /** Delivered bytes as the decoder receives them; which buffer they lay in no longer matters. */
  function AsSpans(data: seq<seq<Byte>>): (spans: seq<RawByteSpan>)
    ensures |spans| == |data|
  {
    seq(|data|, i requires 0 <= i < |data| => RawByteSpan(Some(data[i]), 0))
  }

  /** In every run of receiver, kernel and decoder, what the delivered data decodes to is what was
      decoded so far followed by what the data still in the buffers decodes to. */
  lemma {:induction false} DeliveredIsDecoded(bufs: seq<seq<Byte>>, actions: seq<Buffers.Action>)
    requires Buffers.BufsOk(bufs)
    ensures var s := Buffers.Run(Buffers.Start(bufs), actions);
      DecodedSpans(AsSpans(s.received))
      == DecodedSpans(AsSpans(s.decoded)) + DecodedSpans(AsSpans(Buffers.Contents(s.bufs, Buffers.Pending(s))))
  {
    Buffers.BuffersCirculate(bufs, actions);
    var s := Buffers.Run(Buffers.Start(bufs), actions);
    SpansJoin(s.received, s.decoded, Buffers.Contents(s.bufs, Buffers.Pending(s)));
  }

  lemma {:induction false} SpansJoin(all: seq<seq<Byte>>, a: seq<seq<Byte>>, b: seq<seq<Byte>>)
    requires all == a + b
    ensures DecodedSpans(AsSpans(all)) == DecodedSpans(AsSpans(a)) + DecodedSpans(AsSpans(b))
  {
    assert AsSpans(all) == AsSpans(a) + AsSpans(b);
    Pipelines.GatheredAppend(Framing.Decoded, AsSpans(a), AsSpans(b));
  }
}
