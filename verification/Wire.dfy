/** The wire protocol: little-endian structs as lists of field widths, and frames. */
module Wire {
  import opened Types
  import opened Arith

  type Byte = x: int | 0 <= x < 256

  /** 256^n. */
  function Place(n: nat): (p: nat)
    ensures p >= 1
  {
    if n == 0 then 1 else 256 * Place(n - 1)
  }

  function LittleEndian(v: nat, n: nat): (b: seq<Byte>)
    ensures |b| == n
  {
    if n == 0 then [] else [v % 256] + LittleEndian(v / 256, n - 1)
  }

  function Value(b: seq<Byte>): nat {
    if b == [] then 0 else b[0] + 256 * Value(b[1..])
  }

  lemma {:induction false} ValueBound(b: seq<Byte>)
    ensures Value(b) < Place(|b|)
  {
    if b != [] { ValueBound(b[1..]); }
  }

  lemma {:induction false} ValueOfBytes(v: nat, n: nat)
    requires v < Place(n)
    ensures Value(LittleEndian(v, n)) == v
  {
    if n > 0 {
      ValueOfBytes(v / 256, n - 1);
      assert LittleEndian(v, n)[1..] == LittleEndian(v / 256, n - 1);
    }
  }

  lemma {:induction false} BytesOfValue(b: seq<Byte>)
    ensures LittleEndian(Value(b), |b|) == b
  {
    if b != [] {
      BytesOfValue(b[1..]);
      assert Value(b) % 256 == b[0] && Value(b) / 256 == Value(b[1..]);
    }
  }

  // ----------------------------------------------------------------- layouts

  /** The byte widths of a packed struct's fields, in order. */
  type Layout = seq<nat>

  function Size(ws: Layout): nat {
    if ws == [] then 0 else ws[0] + Size(ws[1..])
  }

  ghost predicate Fits(vs: seq<nat>, ws: Layout) {
    |vs| == |ws| && forall i :: 0 <= i < |ws| ==> vs[i] < Place(ws[i])
  }

  function Pack(vs: seq<nat>, ws: Layout): (b: seq<Byte>)
    requires |vs| == |ws|
    ensures |b| == Size(ws)
  {
    if ws == [] then [] else LittleEndian(vs[0], ws[0]) + Pack(vs[1..], ws[1..])
  }

  function Unpack(b: seq<Byte>, ws: Layout): (vs: seq<nat>)
    requires |b| >= Size(ws)
    ensures |vs| == |ws|
  {
    if ws == [] then [] else [Value(b[..ws[0]])] + Unpack(b[ws[0]..], ws[1..])
  }

  lemma {:induction false} UnpackFits(b: seq<Byte>, ws: Layout)
    requires |b| >= Size(ws)
    ensures Fits(Unpack(b, ws), ws)
  {
    if ws != [] {
      ValueBound(b[..ws[0]]);
      UnpackFits(b[ws[0]..], ws[1..]);
      forall i | 0 <= i < |ws| ensures Unpack(b, ws)[i] < Place(ws[i]) {
        assert i > 0 ==> Unpack(b, ws)[i] == Unpack(b[ws[0]..], ws[1..])[i - 1];
      }
    }
  }

  /** The first field, then the others. */
  lemma {:induction false} UnpackCons(x: seq<Byte>, rest: seq<Byte>, ws: Layout)
    requires ws != [] && |x| == ws[0] && |rest| >= Size(ws[1..])
    ensures Unpack(x + rest, ws) == [Value(x)] + Unpack(rest, ws[1..])
  {
    assert (x + rest)[..ws[0]] == x && (x + rest)[ws[0]..] == rest;
  }

  lemma {:induction false} PackCons(vs: seq<nat>, ws: Layout, more: seq<Byte>)
    requires |vs| == |ws| > 0
    ensures Pack(vs, ws) + more == LittleEndian(vs[0], ws[0]) + (Pack(vs[1..], ws[1..]) + more)
  {
  }

  /** Reading a struct back out of a longer buffer. */
  lemma {:induction false} UnpackPack(vs: seq<nat>, ws: Layout, more: seq<Byte>)
    requires Fits(vs, ws)
    ensures Unpack(Pack(vs, ws) + more, ws) == vs
  {
    if ws != [] {
      UnpackPack(vs[1..], ws[1..], more);
      PackCons(vs, ws, more);
      UnpackCons(LittleEndian(vs[0], ws[0]), Pack(vs[1..], ws[1..]) + more, ws);
      ValueOfBytes(vs[0], ws[0]);
    }
  }

  /** Writing back what was read gives the same bytes. */
  lemma {:induction false} PackUnpack(b: seq<Byte>, ws: Layout)
    requires |b| >= Size(ws)
    ensures Pack(Unpack(b, ws), ws) == b[..Size(ws)]
  {
    if ws != [] {
      BytesOfValue(b[..ws[0]]);
      PackUnpack(b[ws[0]..], ws[1..]);
      assert b[..Size(ws)] == b[..ws[0]] + b[ws[0]..][..Size(ws[1..])];
    }
  }

  const HEADER: Layout := [2, 2]
  const WIRE_NEW_ORDER: Layout := [2, 2, 4, 8, 8, 8, 4, 1, 1, 2]
  const WIRE_CANCEL_ORDER: Layout := [2, 2, 4, 8]
  const WIRE_EXEC_REPORT: Layout := [2, 2, 1, 3, 8, 8, 8, 4, 4, 8]

  const TYPE_NEW_ORDER := 0x0001
  const TYPE_CANCEL_ORDER := 0x0002
  const TYPE_EXEC_REPORT := 0x0010

  lemma {:induction false} Wider(w: nat, ws: Layout, all: Layout)
    requires all == [w] + ws
    ensures Size(all) == w + Size(ws)
  {
    assert all[1..] == ws;
  }

  lemma {:induction false} SizeAdds(a: Layout, b: Layout)
    ensures Size(a + b) == Size(a) + Size(b)
  {
    if a == [] {
      assert a + b == b;
    } else {
      SizeAdds(a[1..], b);
      Wider(a[0], a[1..] + b, a + b);
    }
  }

  /** The sizes the code asserts of its structs. */
  lemma {:induction false} Sizes()
    ensures Size(HEADER) == 4 && Size(WIRE_CANCEL_ORDER) == 16
    ensures Size(WIRE_NEW_ORDER) == 40 && Size(WIRE_EXEC_REPORT) == 48
  {
  }

  /** A layout read in two parts. */
  lemma {:induction false} UnpackParts(x: seq<Byte>, rest: seq<Byte>, a: Layout, c: Layout)
    requires |x| == Size(a) && |rest| >= Size(c)
    ensures Size(a + c) == Size(a) + Size(c)
    ensures Unpack(x + rest, a + c) == Unpack(x, a) + Unpack(rest, c)
    decreases |a|
  {
    SizeAdds(a, c);
    if a == [] {
      assert a + c == c && x + rest == rest;
    } else {
      SizeAdds(a[1..], c);
      UnpackFirst(x, rest, a, c);
      UnpackParts(x[a[0]..], rest, a[1..], c);
    }
  }

  lemma {:induction false} UnpackFirst(x: seq<Byte>, rest: seq<Byte>, a: Layout, c: Layout)
    requires a != [] && |x| == Size(a) && |rest| >= Size(c) && Size(a + c) == Size(a) + Size(c)
    requires Size(a[1..] + c) == Size(a[1..]) + Size(c)
    ensures Unpack(x + rest, a + c) == [Value(x[..a[0]])] + Unpack(x[a[0]..] + rest, a[1..] + c)
    ensures Unpack(x, a) == [Value(x[..a[0]])] + Unpack(x[a[0]..], a[1..])
  {
    assert (a + c)[1..] == a[1..] + c;
    assert x + rest == x[..a[0]] + (x[a[0]..] + rest);
    UnpackCons(x[..a[0]], x[a[0]..] + rest, a + c);
  }

  lemma {:induction false} Places()
    ensures Place(1) == 256 && Place(2) == 0x1_0000 && Place(4) == TWO_32 && Place(8) == TWO_64
  {
    assert Place(3) == 256 * Place(2) && Place(4) == 256 * Place(3);
    assert Place(6) == 256 * Place(5) && Place(8) == 256 * Place(7);
  }

  // ---------------------------------------------------------- signed 64-bit

  const TWO_63: int := 0x8000_0000_0000_0000
  const TWO_64: int := 0x1_0000_0000_0000_0000

  function Signed(v: nat): int
    requires v < TWO_64
  {
    if v < TWO_63 then v else v - TWO_64
  }

  function Unsigned(x: int): nat { x % TWO_64 }

  lemma {:induction false} SignedRoundTrip(x: int, v: nat)
    ensures -TWO_63 <= x < TWO_63 ==> Unsigned(x) < TWO_64 && Signed(Unsigned(x)) == x
    ensures v < TWO_64 ==> -TWO_63 <= Signed(v) < TWO_63 && Unsigned(Signed(v)) == v
  {
  }
}
