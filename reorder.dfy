/** Applying per-item updates one at a time in a different order: when updates for
    items with different keys commute and no key occurs twice, every ordering of the
    same items leads to the same state. This is what makes the completion order of a
    thread pool irrelevant to the builders' final state. */
module Reorder {

  /** Applies `step` to every item of `xs`, first to last. */
  function Fold<S, X>(step: (S, X) -> S, s: S, xs: seq<X>): S
    decreases |xs|
  {
    if xs == [] then s else Fold(step, step(s, xs[0]), xs[1..])
  }

  /** Updates for items with different keys commute, from any state. */
  ghost predicate Commutes<S(!new), X(!new), K>(step: (S, X) -> S, key: X -> K) {
    forall s, a, b :: key(a) != key(b) ==> step(step(s, a), b) == step(step(s, b), a)
  }

  ghost predicate DistinctKeys<X, K>(key: X -> K, xs: seq<X>) {
    forall i, j :: 0 <= i < j < |xs| ==> key(xs[i]) != key(xs[j])
  }

  lemma {:induction false} FoldAppend<S, X>(step: (S, X) -> S, s: S, xs: seq<X>, ys: seq<X>)
    ensures Fold(step, s, xs + ys) == Fold(step, Fold(step, s, xs), ys)
    decreases |xs|
  {
    if xs != [] {
      assert (xs + ys)[0] == xs[0];
      assert (xs + ys)[1..] == xs[1..] + ys;
      FoldAppend(step, step(s, xs[0]), xs[1..], ys);
    } else {
      assert xs + ys == ys;
    }
  }

  /** An item can be moved to the front past items with other keys. */
  lemma {:induction false} MoveToFront<S(!new), X(!new), K>(
    step: (S, X) -> S, key: X -> K, s: S, p: seq<X>, x: X, q: seq<X>)
    requires Commutes(step, key)
    requires forall i :: 0 <= i < |p| ==> key(p[i]) != key(x)
    ensures Fold(step, s, p + [x] + q) == Fold(step, step(s, x), p + q)
    decreases |p|
  {
    if p != [] {
      var t := p[1..];
      assert (p + [x] + q)[0] == p[0];
      assert (p + [x] + q)[1..] == t + [x] + q;
      MoveToFront(step, key, step(s, p[0]), t, x, q);
      assert step(step(s, p[0]), x) == step(step(s, x), p[0]);
      assert (p + q)[0] == p[0];
      assert (p + q)[1..] == t + q;
    } else {
      assert p + [x] + q == [x] + q;
      assert ([x] + q)[0] == x;
      assert ([x] + q)[1..] == q;
      assert p + q == q;
    }
  }

  /** Two orderings of the same distinct-keyed items give the same final state. */
  lemma {:induction false} PermutationInvariant<S(!new), X(!new), K>(
    step: (S, X) -> S, key: X -> K, s: S, xs: seq<X>, ys: seq<X>)
    requires Commutes(step, key)
    requires multiset(xs) == multiset(ys)
    requires DistinctKeys(key, ys)
    ensures Fold(step, s, xs) == Fold(step, s, ys)
    decreases |xs|
  {
    if xs == [] {
      assert |ys| == |multiset(ys)| == 0;
    } else {
      var x := xs[0];
      assert x in multiset(ys);
      var j :| 0 <= j < |ys| && ys[j] == x;
      Extract(step, key, s, ys, j);
      RemoveOne(xs, ys, j);
      DistinctKeysRemove(key, ys, j);
      PermutationInvariant(step, key, step(s, x), xs[1..], ys[..j] + ys[j + 1..]);
    }
  }

  /** Any item of a distinct-keyed list can be applied first. */
  lemma {:induction false} Extract<S(!new), X(!new), K>(
    step: (S, X) -> S, key: X -> K, s: S, ys: seq<X>, j: nat)
    requires Commutes(step, key)
    requires DistinctKeys(key, ys) && j < |ys|
    ensures Fold(step, s, ys) == Fold(step, step(s, ys[j]), ys[..j] + ys[j + 1..])
  {
    var p, x, q := ys[..j], ys[j], ys[j + 1..];
    assert ys == p + [x] + q;
    forall i | 0 <= i < |p| ensures key(p[i]) != key(x) {
      assert p[i] == ys[i];
    }
    MoveToFront(step, key, s, p, x, q);
  }

  lemma {:induction false} RemoveOne<X>(xs: seq<X>, ys: seq<X>, j: nat)
    requires xs != [] && j < |ys| && ys[j] == xs[0]
    requires multiset(xs) == multiset(ys)
    ensures multiset(xs[1..]) == multiset(ys[..j] + ys[j + 1..])
  {
    assert xs == [xs[0]] + xs[1..];
    assert ys == ys[..j] + [ys[j]] + ys[j + 1..];
    assert multiset(xs[1..]) == multiset(xs) - multiset{xs[0]};
    assert multiset(ys[..j] + ys[j + 1..]) == multiset(ys) - multiset{ys[j]};
  }

  lemma {:induction false} DistinctKeysRemove<X, K>(key: X -> K, ys: seq<X>, j: nat)
    requires j < |ys| && DistinctKeys(key, ys)
    ensures DistinctKeys(key, ys[..j] + ys[j + 1..])
  {
    var r := ys[..j] + ys[j + 1..];
    forall i, k | 0 <= i < k < |r| ensures key(r[i]) != key(r[k]) {
      var i' := if i < j then i else i + 1;
      var k' := if k < j then k else k + 1;
      assert r[i] == ys[i'] && r[k] == ys[k'];
    }
  }

  /** Applying the item at position k, then the rest. */
  lemma {:induction false} FoldUnroll<S, X>(step: (S, X) -> S, s: S, xs: seq<X>, k: nat)
    requires k < |xs|
    ensures Fold(step, s, xs[k..]) == Fold(step, step(s, xs[k]), xs[k + 1..])
  {
    assert xs[k..][0] == xs[k] && xs[k..][1..] == xs[k + 1..];
  }

  /** A property that every update for an item of `xs` keeps holds after the fold. */
  lemma {:induction false} FoldPreserves<S, X>(step: (S, X) -> S, inv: S -> bool, s: S, xs: seq<X>)
    requires inv(s)
    requires forall t, x :: x in xs && inv(t) ==> inv(step(t, x))
    ensures inv(Fold(step, s, xs))
    decreases |xs|
  {
    if xs != [] {
      assert xs[0] in xs;
      forall t, x | x in xs[1..] && inv(t) ensures inv(step(t, x)) {
        assert x in xs;
      }
      FoldPreserves(step, inv, step(s, xs[0]), xs[1..]);
    }
  }

  lemma {:induction false} FoldCons<S, X>(step: (S, X) -> S, s: S, x: X, xs: seq<X>)
    ensures Fold(step, s, [x] + xs) == Fold(step, step(s, x), xs)
  {
    assert ([x] + xs)[0] == x && ([x] + xs)[1..] == xs;
  }

  /** Updates of a map at different keys commute. */
  lemma {:induction false} MapSwap<K, V>(m: map<K, V>, a: K, x: V, b: K, y: V)
    requires a != b
    ensures m[a := x][b := y] == m[b := y][a := x]
  {
  }
}
