/** Which bytes mean what: the wire structs by byte position, without layouts or encoders. */
module Positions {
  import opened Types
  import opened Wire
  import opened Framing

  // ------------------------------------------------------------ little-endian

  /** A byte counts 256 to the power of its position. */
  lemma {:induction false} ValueLast(b: seq<Byte>, x: Byte)
    ensures Value(b + [x]) == Value(b) + x * Place(|b|)
  {
    if b == [] {
      assert [] + [x] == [x] && [x][1..] == [];
    } else {
      assert (b + [x])[1..] == b[1..] + [x];
      ValueLast(b[1..], x);
      assert 256 * (x * Place(|b| - 1)) == x * Place(|b|);
    }
  }

  lemma {:induction false} ValueOne(b: seq<Byte>, i: nat)
    requires i < |b|
    ensures Value(b[i..i + 1]) == b[i]
  {
    assert b[i..i + 1] == [b[i]] && [b[i]][1..] == [];
  }

  // ----------------------------------------------------------- fields in bytes

  /** Field `i` occupies its width behind the fields before it. */
  lemma {:induction false} FieldAt(b: seq<Byte>, ws: Layout, i: nat, off: nat)
    requires i < |ws| && |b| >= Size(ws) && Size(ws[..i]) == off
    ensures off + ws[i] <= Size(ws) && Size(ws[..i + 1]) == off + ws[i]
    ensures Unpack(b, ws)[i] == Value(b[off..off + ws[i]])
  {
    var front, back := ws[..i], ws[i..];
    TwoParts(ws, i);
    SizeAdds(front, back);
    Wider(ws[i], ws[i + 1..], back);
    Prefix(ws, i);
    FieldBehind(b[..off], b[off..], front, back);
    TwoParts(b, off);
    Middle(b, off, ws[i]);
  }

  lemma {:induction false} TwoParts<T>(s: seq<T>, i: nat)
    requires i <= |s|
    ensures s[..i] + s[i..] == s && (i < |s| ==> s[i..] == [s[i]] + s[i + 1..])
  {
  }

  lemma {:induction false} Middle<T>(s: seq<T>, i: nat, n: nat)
    requires i + n <= |s|
    ensures s[i..][..n] == s[i..i + n]
  {
  }

  lemma {:induction false} Prefix(ws: Layout, i: nat)
    requires i < |ws|
    ensures Size(ws[..i + 1]) == Size(ws[..i]) + ws[i]
  {
    assert ws[..i + 1] == ws[..i] + [ws[i]];
    SizeAdds(ws[..i], [ws[i]]);
    Wider(ws[i], [], [ws[i]]);
  }

  lemma {:induction false} FieldBehind(x: seq<Byte>, rest: seq<Byte>, front: Layout, back: Layout)
    requires back != [] && |x| == Size(front) && |rest| >= Size(back)
    ensures |x + rest| >= Size(front + back) && back[0] <= |rest|
    ensures Unpack(x + rest, front + back)[|front|] == Value(rest[..back[0]])
  {
    UnpackParts(x, rest, front, back);
    assert Unpack(rest, back)[0] == Value(rest[..back[0]]);
  }

  /** Four fields and where they lie. */
  ghost predicate FieldsAt4(b: seq<Byte>, f: seq<nat>) {
    && |b| >= 16 && |f| >= 4
    && f[0] == Value(b[0..2]) && f[1] == Value(b[2..4]) && f[2] == Value(b[4..8]) && f[3] == Value(b[8..16])
  }

  lemma {:induction false} CancelFieldsAt(b: seq<Byte>, ws: Layout)
    requires |ws| == 4 && ws[0] == 2 && ws[1] == 2 && ws[2] == 4 && ws[3] == 8 && |b| >= Size(ws)
    ensures FieldsAt4(b, Unpack(b, ws))
  {
    assert ws[..0] == [];
    FieldAt(b, ws, 0, 0);
    FieldAt(b, ws, 1, 2);
    FieldAt(b, ws, 2, 4);
    FieldAt(b, ws, 3, 8);
  }

  ghost predicate NewOrderAt(b: seq<Byte>, f: seq<nat>) {
    && |b| >= 40 && |f| == 10
    && f[2] == Value(b[4..8]) && f[3] == Value(b[8..16]) && f[4] == Value(b[16..24]) && f[5] == Value(b[24..32])
    && f[6] == Value(b[32..36]) && f[7] == Value(b[36..37]) && f[8] == Value(b[37..38])
  }

  lemma {:induction false} NewOrderFieldsAt(b: seq<Byte>, ws: Layout)
    requires |ws| == 10 && ws[0] == 2 && ws[1] == 2 && ws[2] == 4 && ws[3] == 8 && ws[4] == 8 && ws[5] == 8
    requires ws[6] == 4 && ws[7] == 1 && ws[8] == 1 && ws[9] == 2 && |b| >= Size(ws)
    ensures NewOrderAt(b, Unpack(b, ws))
  {
    assert ws[..0] == [];
    FieldAt(b, ws, 0, 0);
    FieldAt(b, ws, 1, 2);
    FieldAt(b, ws, 2, 4);
    FieldAt(b, ws, 3, 8);
    FieldAt(b, ws, 4, 16);
    FieldAt(b, ws, 5, 24);
    FieldAt(b, ws, 6, 32);
    FieldAt(b, ws, 7, 36);
    FieldAt(b, ws, 8, 37);
    FieldAt(b, ws, 9, 38);
  }

  ghost predicate ReportAt(b: seq<Byte>, f: seq<nat>) {
    && |b| >= 48 && |f| == 10
    && f[0] == Value(b[0..2]) && f[1] == Value(b[2..4]) && f[2] == Value(b[4..5]) && f[3] == Value(b[5..8])
    && f[4] == Value(b[8..16]) && f[5] == Value(b[16..24]) && f[6] == Value(b[24..32])
    && f[7] == Value(b[32..36]) && f[8] == Value(b[36..40]) && f[9] == Value(b[40..48])
  }

  lemma {:induction false} ReportFieldsAt(b: seq<Byte>, ws: Layout)
    requires |ws| == 10 && ws[0] == 2 && ws[1] == 2 && ws[2] == 1 && ws[3] == 3 && ws[4] == 8 && ws[5] == 8
    requires ws[6] == 8 && ws[7] == 4 && ws[8] == 4 && ws[9] == 8 && |b| >= Size(ws)
    ensures ReportAt(b, Unpack(b, ws))
  {
    assert ws[..0] == [];
    FieldAt(b, ws, 0, 0);
    FieldAt(b, ws, 1, 2);
    FieldAt(b, ws, 2, 4);
    FieldAt(b, ws, 3, 5);
    FieldAt(b, ws, 4, 8);
    FieldAt(b, ws, 5, 16);
    FieldAt(b, ws, 6, 24);
    FieldAt(b, ws, 7, 32);
    FieldAt(b, ws, 8, 36);
    FieldAt(b, ws, 9, 40);
  }

  // -------------------------------------------------------------- what bytes say

  /** An unsigned 64-bit value read as a two's complement one. */
  function TwosComplement(v: nat): int {
    if v < 0x8000_0000_0000_0000 then v else v - 0x1_0000_0000_0000_0000
  }

  /** A new order's fields by byte position; 39 bytes are too few. */
  lemma {:induction false} NewOrderBytes(b: seq<Byte>)
    ensures |b| < 40 ==> ParseNewOrder(b) == None
    ensures |b| >= 40 ==> ParseNewOrder(b).Some? && var m := ParseNewOrder(b).value;
      && m.kind == 0 && m.instrumentId == Value(b[4..8]) && m.orderId == Value(b[8..16]) && m.clientId == Value(b[16..24])
      && m.price == TwosComplement(Value(b[24..32])) && m.quantity == Value(b[32..36])
      && m.side == b[36] && m.orderType == b[37]
  {
    Sizes();
    if |b| >= 40 {
      NewOrderFieldsAt(b, WIRE_NEW_ORDER);
      ValueOne(b, 36);
      ValueOne(b, 37);
    }
  }

  /** A cancel's fields by byte position; everything else of the message is zero. */
  lemma {:induction false} CancelBytesAt(b: seq<Byte>)
    ensures |b| < 16 ==> ParseCancelOrder(b) == None
    ensures |b| >= 16 ==> ParseCancelOrder(b) == Some(Msg(1, Value(b[8..16]), 0, 0, Value(b[4..8]), 0, 0, 0))
  {
    Sizes();
    if |b| >= 16 {
      CancelFieldsAt(b, WIRE_CANCEL_ORDER);
    }
  }

  /** The first two bytes decide: type 1 is a new order, type 2 a cancel, anything else is unknown;
      a known type that is too short means nothing and is not an error. */
  lemma {:induction false} FrameMeans(f: seq<Byte>)
    requires |f| >= 4
    ensures f[0] == 1 && f[1] == 0 ==> Parse(f) == ParseNewOrder(f) && !Unknown(f)
    ensures f[0] == 2 && f[1] == 0 ==> Parse(f) == ParseCancelOrder(f) && !Unknown(f)
    ensures !(f[1] == 0 && (f[0] == 1 || f[0] == 2)) ==> Parse(f) == None && Unknown(f)
  {
  }

  /** One frame is read, or counted, on its own. */
  lemma {:induction false} OneFrameReads(f: seq<Byte>)
    ensures Collect(Parse, [f]) == (if Parse(f).Some? then [Parse(f).value] else [])
    ensures CountOf(Unknown, [f]) == (if Unknown(f) then 1 else 0)
  {
    assert [f][1..] == [];
    assert Collect(Parse, []) == [] && CountOf(Unknown, []) == 0;
  }

  /** A report's fields by byte position, as the client reads them. */
  lemma {:induction false} ReportBytesRead(b: seq<Byte>)
    ensures |b| >= 48 && b[0] == 0x10 && b[1] == 0 ==>
      DecodeExecReport(b) == Some(ExecReport(b[4], Value(b[8..16]), Value(b[16..24]), TwosComplement(Value(b[24..32])),
                                             Value(b[32..36]), Value(b[36..40]), Value(b[40..48])))
    ensures |b| < 48 || b[0] != 0x10 || b[1] != 0 ==> DecodeExecReport(b) == None
  {
    ExecReportRefused(b);
    if |b| >= 48 && b[0] == 0x10 && b[1] == 0 {
      ReportIsRead(b);
      ValueOne(b, 4);
    }
  }

  lemma {:induction false} ReportIsRead(b: seq<Byte>)
    requires |b| >= 48 && DecodeExecReport(b).Some?
    ensures |b| >= Size(WIRE_EXEC_REPORT) && Fits(Unpack(b, WIRE_EXEC_REPORT), WIRE_EXEC_REPORT)
    ensures ReportAt(b, Unpack(b, WIRE_EXEC_REPORT)) && DecodeExecReport(b).value == ReportOf(Unpack(b, WIRE_EXEC_REPORT))
  {
    Sizes();
    UnpackFits(b, WIRE_EXEC_REPORT);
    ReportFieldsAt(b, WIRE_EXEC_REPORT);
  }

  /** The 48 bytes a report is sent as: type, length, kind, zero padding, then its fields. */
  lemma {:induction false} ReportBytesWritten(r: ExecReport)
    requires Reportable(r)
    ensures var b := EncodeExecReport(r);
      && |b| == 48 && b[0] == 0x10 && b[1] == 0 && b[2] == 48 && b[3] == 0 && b[4] == r.kind && Value(b[5..8]) == 0
      && Value(b[8..16]) == r.orderId && Value(b[16..24]) == r.counterpart && TwosComplement(Value(b[24..32])) == r.price
      && Value(b[32..36]) == r.quantity && Value(b[36..40]) == r.leaves && Value(b[40..48]) == r.time
  {
    var b := EncodeExecReport(r);
    ReportIsWritten(r);
    ValueOne(b, 4);
    TwoBytesAt(b, 0, 0x10);
    TwoBytesAt(b, 2, 48);
    SignedRoundTrip(r.price, 0);
  }

  lemma {:induction false} ReportIsWritten(r: ExecReport)
    requires Reportable(r)
    ensures |EncodeExecReport(r)| == 48 && ReportAt(EncodeExecReport(r), ReportFields(r))
  {
    Sizes();
    var b := EncodeExecReport(r);
    ReportFits(r);
    UnpackPack(ReportFields(r), WIRE_EXEC_REPORT, []);
    assert b + [] == b;
    ReportFieldsAt(b, WIRE_EXEC_REPORT);
  }

  lemma {:induction false} TwoBytesAt(b: seq<Byte>, i: nat, v: nat)
    requires i + 2 <= |b| && Value(b[i..i + 2]) == v < 256
    ensures b[i] == v && b[i + 1] == 0
  {
    TwoBytes(b[i..i + 2]);
  }
}
