/** Running a step function over a stream of inputs, collecting its outputs. */
module Folding {

  datatype Ran<S, R> = Outcome(state: S, reports: seq<R>)

  function Fold<S, M, R>(f: (S, M) -> Ran<S, R>, s: S, ms: seq<M>): Ran<S, R> {
    if ms == [] then Outcome(s, [])
    else
      var before := Fold(f, s, ms[..|ms| - 1]);
      var last := f(before.state, ms[|ms| - 1]);
      Outcome(last.state, before.reports + last.reports)
  }

  lemma {:induction false} FoldLast<S, M, R>(f: (S, M) -> Ran<S, R>, s: S, ms: seq<M>, m: M)
    ensures var before := Fold(f, s, ms); var last := f(before.state, m);
      Fold(f, s, ms + [m]) == Outcome(last.state, before.reports + last.reports)
  {
    assert (ms + [m])[..|ms|] == ms;
  }

  lemma {:induction false} FoldSplits<S, M, R>(f: (S, M) -> Ran<S, R>, s: S, a: seq<M>, b: seq<M>)
    ensures var first := Fold(f, s, a); var second := Fold(f, first.state, b);
      Fold(f, s, a + b) == Outcome(second.state, first.reports + second.reports)
  {
    if b == [] {
      assert a + b == a;
    } else {
      var n := |b| - 1;
      FoldSplits(f, s, a, b[..n]);
      FoldLast(f, s, a + b[..n], b[n]);
      assert a + b == a + b[..n] + [b[n]];
    }
  }

  /** Taking one step after the other. */
  function Steps<S, A>(f: (S, A) -> S, s: S, actions: seq<A>): S {
    if actions == [] then s else f(Steps(f, s, actions[..|actions| - 1]), actions[|actions| - 1])
  }

  lemma {:induction false} StepsAppend<S, A>(f: (S, A) -> S, s: S, a: seq<A>, b: seq<A>)
    ensures Steps(f, s, a + b) == Steps(f, Steps(f, s, a), b)
    decreases |b|
  {
    if b == [] {
      assert a + b == a;
    } else {
      var n := |b| - 1;
      StepsAppend(f, s, a, b[..n]);
      assert (a + b)[..|a + b| - 1] == a + b[..n];
    }
  }

  /** A run, seen around its `j`-th input. */
  lemma {:induction false} FoldAround<S, M, R>(f: (S, M) -> Ran<S, R>, s: S, ms: seq<M>, j: nat)
    requires j < |ms|
    ensures var before := Fold(f, s, ms[..j]); var mid := f(before.state, ms[j]); var tail := Fold(f, mid.state, ms[j + 1..]);
      Fold(f, s, ms) == Outcome(tail.state, before.reports + mid.reports + tail.reports)
  {
    FoldLast(f, s, ms[..j], ms[j]);
    assert ms[..j] + [ms[j]] == ms[..j + 1];
    FoldSplits(f, s, ms[..j + 1], ms[j + 1..]);
    assert ms[..j + 1] + ms[j + 1..] == ms;
  }

  lemma {:induction false} AppendTwice<T>(a: seq<T>, b: seq<T>, c: seq<T>)
    ensures a + b + c == a + (b + c)
  {
  }

  /** A map with `f` applied to every value. */
  ghost function Mapped<V, W>(f: V -> W, m: map<nat, V>): map<nat, W> {
    map k | k in m :: f(m[k])
  }

  lemma {:induction false} MappedGrows<V, W>(f: V -> W, m: map<nat, V>, k: nat, v: V)
    ensures Mapped(f, m[k := v]) == Mapped(f, m)[k := f(v)]
  {
  }

  function Concat<T>(parts: seq<seq<T>>): seq<T> {
    if parts == [] then [] else parts[0] + Concat(parts[1..])
  }

  lemma {:induction false} ConcatAppend<T>(a: seq<seq<T>>, b: seq<seq<T>>)
    ensures Concat(a + b) == Concat(a) + Concat(b)
  {
    if a == [] {
      assert a + b == b;
    } else {
      assert (a + b)[1..] == a[1..] + b;
      ConcatAppend(a[1..], b);
    }
  }
}
