/** What a sweep is, said without recursion, and how much it trades. */
module SweepLaws {
  import opened Types
  import opened Reference

  function Total(s: seq<Resting>): nat {
    if s == [] then 0 else s[0].qty + Total(s[1..])
  }

  ghost predicate Positive(s: seq<Resting>) {
    forall i :: 0 <= i < |s| ==> s[i].qty > 0
  }

  ghost predicate PriceSorted(side: Side, s: seq<Resting>) {
    forall i, j :: 0 <= i < j < |s| ==> !Better(side, s[j].price, s[i].price)
  }

  /** The first `k` makers are consumed whole, in order, each at its own price; then
      either the sweep stops there, or maker `k` is hit for part of its quantity and the
      aggressor is done.  Everything behind is untouched. */
  ghost predicate GreedyAt(s: seq<Resting>, side: Side, limit: Option<int>, q: nat, w: Swept, k: nat) {
    && k <= |s|
    && k <= |w.trades|
    && (forall i :: 0 <= i < k ==> Crosses(side, limit, s[i].price))
    && Total(s[..k]) <= q
    && (forall i :: 0 <= i < k ==> ConsumedWhole(s, i, q, w.trades[i]))
    && (if |w.trades| == k then StopsAt(s, side, limit, q - Total(s[..k]), w, k)
        else HitsPartOf(s, side, limit, q - Total(s[..k]), w, k))
  }

  ghost predicate ConsumedWhole(s: seq<Resting>, i: nat, q: nat, t: Trade)
    requires i < |s|
  {
    t.maker == s[i].id && t.price == s[i].price && t.qty == s[i].qty && t.makerLeft == 0
    && t.takerLeft == q - Total(s[..i + 1])
  }

  ghost predicate StopsAt(s: seq<Resting>, side: Side, limit: Option<int>, r: nat, w: Swept, k: nat)
    requires k <= |s|
  {
    && w.rest == s[k..]
    && w.left == r
    && (r == 0 || k == |s| || !Crosses(side, limit, s[k].price))
  }

  ghost predicate HitsPartOf(s: seq<Resting>, side: Side, limit: Option<int>, r: nat, w: Swept, k: nat)
    requires k <= |s|
  {
    && |w.trades| == k + 1
    && k < |s|
    && Crosses(side, limit, s[k].price)
    && 0 < r < s[k].qty
    && w.left == 0
    && w.rest == [s[k].(qty := s[k].qty - r)] + s[k + 1..]
    && w.trades[k] == Trade(s[k].id, s[k].price, r, s[k].qty - r, 0)
  }

  lemma {:induction false} TotalPrefix(s: seq<Resting>, k: nat)
    requires k < |s|
    ensures Total(s[..k + 1]) == Total(s[..k]) + s[k].qty
  {
    if k > 0 {
      TotalPrefix(s[1..], k - 1);
      assert s[..k + 1][1..] == s[1..][..k];
      assert s[..k][1..] == s[1..][..k - 1];
    } else {
      assert s[..1][1..] == [];
    }
  }

  lemma {:induction false} TotalMonotone(s: seq<Resting>, j: nat, k: nat)
    requires j <= k <= |s|
    ensures Total(s[..j]) <= Total(s[..k])
    decreases k
  {
    if j < k {
      TotalMonotone(s, j, k - 1);
      TotalPrefix(s, k - 1);
    }
  }

  /** Consuming the head whole extends a greedy walk over the tail. */
  lemma {:induction false} GreedyCons(
      s: seq<Resting>, side: Side, limit: Option<int>, q: nat, w: Swept, w': Swept, k: nat)
    requires s != [] && Crosses(side, limit, s[0].price) && s[0].qty <= q
    requires GreedyAt(s[1..], side, limit, q - s[0].qty, w', k)
    requires w.trades == [Trade(s[0].id, s[0].price, s[0].qty, 0, q - s[0].qty)] + w'.trades
    requires w.rest == w'.rest && w.left == w'.left
    ensures GreedyAt(s, side, limit, q, w, k + 1)
  {
    var t := s[1..];
    assert s[..k + 1][1..] == t[..k];
    forall i | 0 <= i < k + 1
      ensures ConsumedWhole(s, i, q, w.trades[i])
    {
      assert s[..i + 1][1..] == t[..i];
      if i > 0 {
        assert ConsumedWhole(t, i - 1, q - s[0].qty, w'.trades[i - 1]);
      }
    }
    forall i | 0 <= i < k + 1
      ensures Crosses(side, limit, s[i].price)
    {
      if i > 0 { assert Crosses(side, limit, t[i - 1].price); }
    }
    GreedyConsEnd(s, side, limit, q - Total(s[..k + 1]), w, w', k);
  }

  lemma {:induction false} GreedyConsEnd(
      s: seq<Resting>, side: Side, limit: Option<int>, r: nat, w: Swept, w': Swept, k: nat)
    requires k < |s|
    requires |w.trades| == |w'.trades| + 1 && w.trades[1..] == w'.trades
    requires w.rest == w'.rest && w.left == w'.left
    ensures StopsAt(s[1..], side, limit, r, w', k) ==> StopsAt(s, side, limit, r, w, k + 1)
    ensures HitsPartOf(s[1..], side, limit, r, w', k) ==> HitsPartOf(s, side, limit, r, w, k + 1)
  {
    assert s[1..][k..] == s[k + 1..];
    if k + 1 < |s| {
      assert s[1..][k + 1..] == s[k + 2..];
    }
    if HitsPartOf(s[1..], side, limit, r, w', k) {
      assert w.trades[k + 1] == w'.trades[k];
    }
  }

  lemma {:induction false} GreedyBase(s: seq<Resting>, side: Side, limit: Option<int>, q: nat, w: Swept)
    requires |w.trades| == 0 ==> StopsAt(s, side, limit, q, w, 0)
    requires |w.trades| > 0 ==> HitsPartOf(s, side, limit, q, w, 0)
    ensures GreedyAt(s, side, limit, q, w, 0)
  {
    assert s[..0] == [];
  }

  /** A sweep that consumes no maker whole. */
  lemma {:induction false} SweepShort(s: seq<Resting>, side: Side, limit: Option<int>, q: nat)
    requires q == 0 || s == [] || !Crosses(side, limit, s[0].price) || s[0].qty > q
    ensures var w := Sweep(s, side, limit, q); |w.rest| == |s| && GreedyAt(s, side, limit, q, w, 0)
  {
    GreedyBase(s, side, limit, q, Sweep(s, side, limit, q));
  }

  /** A sweep that consumes the first maker whole. */
  lemma {:induction false} SweepLong(s: seq<Resting>, side: Side, limit: Option<int>, q: nat)
    requires q > 0 && s != [] && Crosses(side, limit, s[0].price) && s[0].qty <= q
    requires var w' := Sweep(s[1..], side, limit, q - s[0].qty);
      GreedyAt(s[1..], side, limit, q - s[0].qty, w', |s[1..]| - |w'.rest|)
    ensures var w := Sweep(s, side, limit, q); GreedyAt(s, side, limit, q, w, |s| - |w.rest|)
  {
    var w, w' := Sweep(s, side, limit, q), Sweep(s[1..], side, limit, q - s[0].qty);
    GreedyCons(s, side, limit, q, w, w', |s[1..]| - |w'.rest|);
  }

  /** The sweep consumes a prefix, and at most the last order it touches is partial. */
  lemma {:induction false} SweepIsGreedy(s: seq<Resting>, side: Side, limit: Option<int>, q: nat)
    ensures var w := Sweep(s, side, limit, q); GreedyAt(s, side, limit, q, w, |s| - |w.rest|)
    decreases |s|
  {
    if q > 0 && s != [] && Crosses(side, limit, s[0].price) && s[0].qty <= q {
      SweepIsGreedy(s[1..], side, limit, q - s[0].qty);
      SweepLong(s, side, limit, q);
    } else {
      SweepShort(s, side, limit, q);
    }
  }

  lemma {:induction false} GreedyStopsOnce(
      s: seq<Resting>, side: Side, limit: Option<int>, q: nat, w: Swept, k: nat, w': Swept, k': nat)
    requires Positive(s)
    requires GreedyAt(s, side, limit, q, w, k)
    requires GreedyAt(s, side, limit, q, w', k')
    ensures k' <= k
  {
    if k < k' {
      TotalPrefix(s, k);
      TotalMonotone(s, k + 1, k');
    }
  }

  lemma {:induction false} GreedyIsUnique(
      s: seq<Resting>, side: Side, limit: Option<int>, q: nat, w: Swept, k: nat, w': Swept, k': nat)
    requires Positive(s)
    requires GreedyAt(s, side, limit, q, w, k)
    requires GreedyAt(s, side, limit, q, w', k')
    ensures w == w'
  {
    GreedyStopsOnce(s, side, limit, q, w, k, w', k');
    GreedyStopsOnce(s, side, limit, q, w', k', w, k);
    assert |w.trades| == |w'.trades|;
    forall i | 0 <= i < |w.trades|
      ensures w.trades[i] == w'.trades[i]
    {
      if i < k {
        assert ConsumedWhole(s, i, q, w.trades[i]) && ConsumedWhole(s, i, q, w'.trades[i]);
      }
    }
  }

  /** Being the greedy walk determines the sweep: trades, remaining list and residual. */
  lemma {:induction false} SweepCharacterised(s: seq<Resting>, side: Side, limit: Option<int>, q: nat, w: Swept)
    requires Positive(s)
    ensures w == Sweep(s, side, limit, q) <==> exists k :: GreedyAt(s, side, limit, q, w, k)
  {
    var v := Sweep(s, side, limit, q);
    SweepIsGreedy(s, side, limit, q);
    forall k: nat | GreedyAt(s, side, limit, q, w, k)
      ensures w == v
    {
      GreedyIsUnique(s, side, limit, q, w, k, v, |s| - |v.rest|);
    }
  }

  lemma {:induction false} NothingCrosses(s: seq<Resting>, side: Side, limit: Option<int>)
    requires forall i :: 0 <= i < |s| ==> !Crosses(side, limit, s[i].price)
    ensures Crossable(s, side, limit) == 0
  {
    if s != [] {
      assert !Crosses(side, limit, s[0].price);
      NothingCrosses(s[1..], side, limit);
    }
  }

  /** On a price-sorted list the sweep executes everything it may: the smaller of the
      order's quantity and the crossable quantity, and stops only when nothing crosses. */
  lemma {:induction false} SweepQuantity(s: seq<Resting>, side: Side, limit: Option<int>, q: nat)
    requires PriceSorted(Opposite(side), s)
    ensures var w := Sweep(s, side, limit, q);
      && w.left == q - Min(q, Crossable(s, side, limit))
      && (w.left > 0 ==> w.rest == [] || !Crosses(side, limit, w.rest[0].price))
    decreases |s|
  {
    if q > 0 && s != [] {
      if !Crosses(side, limit, s[0].price) {
        forall i | 0 <= i < |s| ensures !Crosses(side, limit, s[i].price) {}
        NothingCrosses(s, side, limit);
      } else if s[0].qty <= q {
        SweepQuantity(s[1..], side, limit, q - s[0].qty);
      }
    }
  }

  /** Every iteration lowers the aggressor: trades are positive, the reported leaves
      strictly fall, and there is at most one trade more than makers consumed. */
  lemma {:induction false} SweepProgress(s: seq<Resting>, side: Side, limit: Option<int>, q: nat)
    requires Positive(s)
    ensures var w := Sweep(s, side, limit, q);
      && (forall i :: 0 <= i < |w.trades| ==> w.trades[i].qty > 0)
      && (forall i :: 0 <= i < |w.trades| ==>
            w.trades[i].takerLeft + w.trades[i].qty == if i == 0 then q else w.trades[i - 1].takerLeft)
      && |s| - |w.rest| <= |w.trades| <= |s| - |w.rest| + 1
      && Positive(w.rest)
    decreases |s|
  {
    if q > 0 && s != [] && Crosses(side, limit, s[0].price) && s[0].qty <= q {
      var w := Sweep(s, side, limit, q);
      var w' := Sweep(s[1..], side, limit, q - s[0].qty);
      SweepProgress(s[1..], side, limit, q - s[0].qty);
      forall i | 0 <= i < |w.trades|
        ensures w.trades[i].takerLeft + w.trades[i].qty == if i == 0 then q else w.trades[i - 1].takerLeft
        ensures w.trades[i].qty > 0
      {
        if i > 0 { assert w.trades[i] == w'.trades[i - 1]; }
      }
    }
  }
}
