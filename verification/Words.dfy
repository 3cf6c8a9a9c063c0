/** Machine words: powers of two, bit masks, and 64-bit indices that wrap around. */
module Words {
  import opened Arith

  function Pow2(k: nat): (p: nat)
    ensures p >= 1
  {
    if k == 0 then 1 else 2 * Pow2(k - 1)
  }

  /** Bitwise and. */
  function And(x: nat, y: nat): nat {
    if x == 0 || y == 0 then 0 else 2 * And(x / 2, y / 2) + (x % 2) * (y % 2)
  }

  lemma {:induction false} AndBound(x: nat, y: nat)
    ensures And(x, y) <= y
  {
    if x != 0 && y != 0 { AndBound(x / 2, y / 2); }
  }

  lemma {:induction false} PowAdds(a: nat, b: nat)
    ensures Pow2(a + b) == Pow2(a) * Pow2(b)
  {
    if a > 0 {
      PowAdds(a - 1, b);
      assert Pow2(a + b) == 2 * Pow2(a - 1 + b);
    }
  }

  /** The last bit of a remainder by an even number, and the bits above it. */
  lemma {:induction false} ModByEven(x: nat, h: nat)
    requires h > 0
    ensures x % (2 * h) == 2 * ((x / 2) % h) + x % 2
  {
    var q, r := (x / 2) / h, (x / 2) % h;
    Multiple(x / 2, h);
    assert q * (2 * h) == 2 * (q * h);
    DivModUnique(x, q, 2 * r + x % 2, 2 * h);
  }

  /** A mask that ends in a one keeps the last bit. */
  lemma {:induction false} AndOdd(x: nat, m: nat)
    ensures And(x, 2 * m + 1) == 2 * And(x / 2, m) + x % 2
  {
    assert (2 * m + 1) / 2 == m && (2 * m + 1) % 2 == 1;
  }

  lemma {:induction false} MaskStep(x: nat, h: nat, p: nat)
    requires h > 0 && p == 2 * h && And(x / 2, h - 1) == (x / 2) % h
    ensures And(x, p - 1) == x % p
  {
    AndOdd(x, h - 1);
    ModByEven(x, h);
    assert p - 1 == 2 * (h - 1) + 1;
  }

  /** Masking with `2^k - 1` is the remainder by `2^k`. */
  lemma {:induction false} MaskIsMod(x: nat, k: nat)
    ensures And(x, Pow2(k) - 1) == x % Pow2(k)
  {
    if k > 0 {
      MaskIsMod(x / 2, k - 1);
      MaskStep(x, Pow2(k - 1), Pow2(k));
    }
  }

  // -------------------------------------------------------------- 64-bit indices

  const WORD: nat := 0x1_0000_0000_0000_0000

  type Word = x: int | 0 <= x < WORD

  /** The word a counter is stored as. */
  function Wrap(c: int): Word { c % WORD }

  /** `a + b` and `a - b` on unsigned 64-bit words. */
  function Add64(a: int, b: int): Word { (a + b) % WORD }
  function Sub64(a: int, b: int): Word { (a - b) % WORD }

  lemma {:induction false} HalfWordIsPow()
    ensures Pow2(32) == 0x1_0000_0000
  {
    assert Pow2(4) == 16;
    PowAdds(4, 4);
    PowAdds(8, 8);
    PowAdds(16, 16);
  }

  lemma {:induction false} WordIsPow()
    ensures WORD == Pow2(64)
  {
    HalfWordIsPow();
    PowAdds(32, 32);
  }

  /** Two integers that differ by a multiple of `t` have the same remainder. */
  lemma {:induction false} SameMod(a: int, b: int, q: int, t: int)
    requires t > 0 && a == b + q * t
    ensures a % t == b % t
  {
    DivModUnique(a, b / t + q, b % t, t);
  }

  lemma {:induction false} Multiple(c: int, t: int)
    requires t > 0
    ensures c == c % t + (c / t) * t
  {
  }

  /** Wrapping first changes nothing. */
  lemma {:induction false} AddWrapped(c: int, d: int)
    ensures Add64(Wrap(c), d) == Wrap(c + d)
  {
    Multiple(c, WORD);
    SameMod(c + d, Wrap(c) + d, c / WORD, WORD);
  }

  /** The difference of two wrapped counters is their distance, when that fits a word. */
  lemma {:induction false} Distance(a: int, b: int)
    requires 0 <= a - b < WORD
    ensures Sub64(Wrap(a), Wrap(b)) == a - b
  {
    Multiple(a, WORD);
    Multiple(b, WORD);
    SameMod(a - b, Wrap(a) - Wrap(b), a / WORD - b / WORD, WORD);
  }

  lemma {:induction false} NoBorrow(a: int, b: int)
    requires 0 <= a - b < WORD
    ensures Sub64(a, b) == a - b
  {
  }

  // ------------------------------------------------------------------ ring slots

  /** `idx & kMask` for a ring of `2^k` slots. */
  function SlotOf(idx: Word, k: nat): (i: nat)
    ensures i < Pow2(k)
  {
    AndBound(idx, Pow2(k) - 1);
    And(idx, Pow2(k) - 1)
  }

  lemma {:induction false} PowMonotone(a: nat, b: nat)
    requires a <= b
    ensures Pow2(a) <= Pow2(b)
  {
    PowAdds(a, b - a);
    MulAtLeast(Pow2(b - a), Pow2(a));
  }

  /** A ring of `2^k` slots, `k < 64`, fits the index word: its length is below it and divides it. */
  lemma {:induction false} RingFits(k: nat)
    requires k < 64
    ensures Pow2(k) < WORD && WORD % Pow2(k) == 0 && WORD == Pow2(64 - k) * Pow2(k)
  {
    WordIsPow();
    PowAdds(64 - k, k);
    PowMonotone(k, 63);
    assert Pow2(64) == 2 * Pow2(63);
    DivModUnique(WORD, Pow2(64 - k), 0, Pow2(k));
  }

  lemma {:induction false} Associate(a: int, b: int, c: int)
    ensures a * (b * c) == (a * b) * c
  {
  }

  /** The slot of a wrapped index is the slot of the unbounded counter. */
  lemma {:induction false} SlotWrapped(c: nat, k: nat)
    requires k < 64
    ensures SlotOf(Wrap(c), k) == c % Pow2(k) && c % Pow2(k) < Pow2(k)
  {
    RingFits(k);
    MaskIsMod(Wrap(c), k);
    Multiple(c, WORD);
    Associate(c / WORD, Pow2(64 - k), Pow2(k));
    SameMod(c, Wrap(c), (c / WORD) * Pow2(64 - k), Pow2(k));
  }

  /** Counters less than one lap apart use different slots. */
  lemma {:induction false} SlotsDiffer(a: int, b: int, n: int)
    requires n > 0 && 0 < a - b < n
    ensures a % n != b % n
  {
    if a % n == b % n {
      Multiple(a, n);
      Multiple(b, n);
      var q := a / n - b / n;
      assert a - b == q * n;
      if q >= 1 {
        MulAtLeast(q, n);
      }
    }
  }

  lemma {:induction false} TestsWrapped(w: nat, r: nat, n: nat)
    requires n < WORD && r <= w <= r + n
    ensures Sub64(Wrap(w), Wrap(r)) == w - r
    ensures Wrap(r) == Wrap(w) <==> r == w
  {
    Distance(w, r);
  }

  lemma {:induction false} SlotAhead(c: nat, i: nat, k: nat)
    requires k < 64
    ensures SlotOf(Add64(Wrap(c), i), k) == (c + i) % Pow2(k) && (c + i) % Pow2(k) < Pow2(k)
  {
    AddWrapped(c, i);
    SlotWrapped(c + i, k);
  }

  /** Wrap-around is invisible: with the writer `w` at most `2^k` ahead of the reader `r`, the
      full test, the empty test, the used count (so the free count too) and every slot computed
      on 64-bit words are those of the unbounded counters. */
  lemma {:induction false} WrapIsInvisible(w: nat, r: nat, i: nat, k: nat)
    requires k < 64 && r <= w <= r + Pow2(k)
    ensures Sub64(Wrap(w), Wrap(r)) == Pow2(k) <==> w - r == Pow2(k)
    ensures Wrap(r) == Wrap(w) <==> r == w
    ensures Sub64(Wrap(w), Wrap(r)) == w - r
    ensures SlotOf(Add64(Wrap(w), i), k) == (w + i) % Pow2(k)
    ensures SlotOf(Add64(Wrap(r), i), k) == (r + i) % Pow2(k)
  {
    RingFits(k);
    TestsWrapped(w, r, Pow2(k));
    SlotAhead(w, i, k);
    SlotAhead(r, i, k);
  }
}
