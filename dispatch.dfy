/** Dispatching a batch of (word, flags) pairs: the pairs not processed yet, in batch
    order, and facts about the words of pair lists that the three builders share. The
    thread pool's completion order is an `arrange` function that permutes what it is
    given. */
module Dispatch {
  import opened Text
  import opened WordList
  import Reorder
  import Chunking

  /** The words of a batch that are not processed yet, in batch order. */
  function Pending(processed: set<string>, batch: seq<Pair>): seq<Pair> {
    Filter(batch, (p: Pair) => p.word !in processed)
  }

  /** The thread pool completes every submitted task exactly once. */
  ghost predicate Permutes(arrange: seq<Pair> -> seq<Pair>) {
    forall s :: multiset(arrange(s)) == multiset(s)
  }

  function WordOf(p: Pair): string { p.word }

  lemma {:induction false} WordsAppend(a: seq<Pair>, b: seq<Pair>)
    ensures Words(a + b) == Words(a) + Words(b)
    decreases |a|
  {
    if a != [] {
      assert (a + b)[0] == a[0] && (a + b)[1..] == a[1..] + b;
      WordsAppend(a[1..], b);
    } else {
      assert a + b == b;
    }
  }

  lemma {:induction false} WordsMember(ps: seq<Pair>, w: string)
    ensures w in Words(ps) <==> exists i :: 0 <= i < |ps| && ps[i].word == w
  {
    InWords(ps, w);
    if w in Words(ps) {
      assert ps[FirstIndex(ps, w)].word == w;
    }
  }

  /** Two listings of the same pairs have the same words. */
  lemma {:induction false} WordsPermuted(a: seq<Pair>, b: seq<Pair>)
    requires multiset(a) == multiset(b)
    ensures Words(a) == Words(b)
  {
    forall w | w in Words(a) ensures w in Words(b) {
      WordsMember(a, w);
      var i :| 0 <= i < |a| && a[i].word == w;
      assert a[i] in multiset(b);
      var j :| 0 <= j < |b| && b[j] == a[i];
      WordsMember(b, w);
    }
    forall w | w in Words(b) ensures w in Words(a) {
      WordsMember(b, w);
      var j :| 0 <= j < |b| && b[j].word == w;
      assert b[j] in multiset(a);
      var i :| 0 <= i < |a| && a[i] == b[j];
      WordsMember(a, w);
    }
  }

  /** The words dispatched from a batch: those of its words not yet processed. */
  lemma {:induction false} PendingWords(processed: set<string>, batch: seq<Pair>)
    ensures Words(Pending(processed, batch)) == Words(batch) - processed
  {
    var pending := Pending(processed, batch);
    forall w | w in Words(pending) ensures w in Words(batch) - processed {
      WordsMember(pending, w);
      var i :| 0 <= i < |pending| && pending[i].word == w;
      var j :| 0 <= j < |batch| && batch[j] == pending[i];
      WordsMember(batch, w);
    }
    forall w | w in Words(batch) - processed ensures w in Words(pending) {
      WordsMember(batch, w);
      var j :| 0 <= j < |batch| && batch[j].word == w;
      var i :| 0 <= i < |pending| && pending[i] == batch[j];
      WordsMember(pending, w);
    }
  }

  /** Keeping some pairs of a list without repeated words gives a list without
      repeated words. */
  lemma {:induction false} FilterDistinct(ps: seq<Pair>, keep: Pair -> bool)
    requires Reorder.DistinctKeys(WordOf, ps)
    ensures Reorder.DistinctKeys(WordOf, Filter(ps, keep))
    decreases |ps|
  {
    if ps != [] {
      var rest := ps[1..];
      assert Reorder.DistinctKeys(WordOf, rest) by {
        forall i, j | 0 <= i < j < |rest| ensures WordOf(rest[i]) != WordOf(rest[j]) {
          assert rest[i] == ps[i + 1] && rest[j] == ps[j + 1];
        }
      }
      FilterDistinct(rest, keep);
      var tail := Filter(rest, keep);
      var r := Filter(ps, keep);
      if keep(ps[0]) {
        assert r == [ps[0]] + tail;
        forall k | 0 <= k < |tail| ensures tail[k].word != ps[0].word {
          var j :| 0 <= j < |rest| && rest[j] == tail[k];
          assert ps[j + 1] == rest[j];
        }
        ConsDistinct(ps[0], tail);
      } else {
        assert r == tail;
      }
    }
  }

  lemma {:induction false} ConsDistinct(x: Pair, tail: seq<Pair>)
    requires Reorder.DistinctKeys(WordOf, tail)
    requires forall k :: 0 <= k < |tail| ==> tail[k].word != x.word
    ensures Reorder.DistinctKeys(WordOf, [x] + tail)
  {
    var r := [x] + tail;
    forall i, j | 0 <= i < j < |r| ensures WordOf(r[i]) != WordOf(r[j]) {
      assert r[j] == tail[j - 1];
      if i > 0 { assert r[i] == tail[i - 1]; }
    }
  }

  /** The pending pairs of a batch without repeated words have no repeated words. */
  lemma {:induction false} PendingDistinct(processed: set<string>, batch: seq<Pair>)
    requires Reorder.DistinctKeys(WordOf, batch)
    ensures Reorder.DistinctKeys(WordOf, Pending(processed, batch))
  {
    FilterDistinct(batch, (p: Pair) => p.word !in processed);
  }

  lemma {:induction false} DistinctWordsKeys(ps: seq<Pair>)
    ensures DistinctWords(ps) <==> Reorder.DistinctKeys(WordOf, ps)
  {
    if DistinctWords(ps) {
      forall i, j | 0 <= i < j < |ps| ensures WordOf(ps[i]) != WordOf(ps[j]) {
      }
    }
    if Reorder.DistinctKeys(WordOf, ps) {
      forall i, j | 0 <= i < j < |ps| ensures ps[i].word != ps[j].word {
        assert WordOf(ps[i]) != WordOf(ps[j]);
      }
    }
  }

  /** Two lists without repeated words and with no word in common concatenate to a
      list without repeated words. */
  lemma {:induction false} DistinctAppend(a: seq<Pair>, b: seq<Pair>)
    requires DistinctWords(a) && DistinctWords(b) && Words(a) !! Words(b)
    ensures DistinctWords(a + b)
  {
    var c := a + b;
    forall i, j | 0 <= i < j < |c| ensures c[i].word != c[j].word {
      if j < |a| {
        assert c[i] == a[i] && c[j] == a[j];
      } else if i >= |a| {
        assert c[i] == b[i - |a|] && c[j] == b[j - |a|];
      } else {
        assert c[i] == a[i] && c[j] == b[j - |a|];
        WordsMember(a, a[i].word);
        WordsMember(b, b[j - |a|].word);
      }
    }
  }

  /** Folding over the batches from position i on: the batch at i, then the batches
      after it. */
  lemma {:induction false} FoldChunksNext<S, X>(step: (S, seq<X>) -> S, s: S, xs: seq<X>, size: nat, i: nat)
    requires size > 0 && i < |xs|
    ensures var m := Chunking.Min(size, |xs| - i);
      Reorder.Fold(step, s, Chunking.Chunks(xs[i..], size))
      == Reorder.Fold(step, step(s, xs[i..i + m]), Chunking.Chunks(xs[i + m..], size))
  {
    var m := Chunking.Min(size, |xs| - i);
    Chunking.ChunksNext(xs, size, i);
    Reorder.FoldCons(step, s, xs[i..i + m], Chunking.Chunks(xs[i + m..], size));
  }
}
