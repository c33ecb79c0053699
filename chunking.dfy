/** Splitting a list into the slices `xs[i:i + size]` for i in range(0, len(xs), size),
    as every batch loop and the term-bank writer do. */
module Chunking {

  function Min(a: int, b: int): int { if a <= b then a else b }

  function Chunks<T>(s: seq<T>, size: nat): seq<seq<T>>
    requires size > 0
    decreases |s|
  {
    if |s| == 0 then []
    else
      var m := Min(size, |s|);
      [s[..m]] + Chunks(s[m..], size)
  }

  function Flatten<T>(ss: seq<seq<T>>): seq<T>
    decreases |ss|
  {
    if ss == [] then [] else ss[0] + Flatten(ss[1..])
  }

  /** Number of chunks: (n + size - 1) // size, i.e. the ceiling of n / size. */
  function CeilDiv(n: nat, size: nat): nat
    requires size > 0
  {
    (n + size - 1) / size
  }

  /** The batches put back together are the whole input, in order. */
  lemma {:induction false} FlattenChunks<T>(s: seq<T>, size: nat)
    requires size > 0
    ensures Flatten(Chunks(s, size)) == s
    decreases |s|
  {
    if |s| > 0 {
      var m := Min(size, |s|);
      FlattenChunks(s[m..], size);
      assert s == s[..m] + s[m..];
    }
  }

  lemma {:induction false} DivStep(n: nat, size: nat)
    requires size > 0 && n >= size
    ensures (n - size + size - 1) / size + 1 == (n + size - 1) / size
  {
    var q := (n - size + size - 1) / size;
    var r := (n - size + size - 1) % size;
    assert n - size + size - 1 == q * size + r;
    assert n + size - 1 == (q + 1) * size + r;
    DivUnique(n + size - 1, size, q + 1, r);
  }

  lemma {:induction false} DivUnique(x: nat, size: nat, q: int, r: int)
    requires size > 0 && 0 <= r < size && x == q * size + r
    ensures x / size == q
  {
    var q' := x / size;
    var r' := x % size;
    assert x == q' * size + r';
    SameQuotient(q, r, q', r', size);
  }

  lemma {:induction false} SameQuotient(q: int, r: int, q': int, r': int, size: int)
    requires size > 0 && 0 <= r < size && 0 <= r' < size
    requires q * size + r == q' * size + r'
    ensures q == q'
  {
    if q' > q {
      MulSplit(q' - q, q, size);
      MulAtLeast(q' - q, size);
    } else if q' < q {
      MulSplit(q - q', q', size);
      MulAtLeast(q - q', size);
    }
  }

  lemma {:induction false} MulSplit(d: int, q: int, size: int)
    ensures (q + d) * size == q * size + d * size
  {
  }

  lemma {:induction false} MulAtLeast(d: int, size: int)
    requires d >= 1 && size > 0
    ensures d * size >= size
  {
  }

  /** There are ceil(n / size) batches; each holds `size` items except possibly the
      last, which holds between 1 and `size`. */
  lemma {:induction false} ChunksShape<T>(s: seq<T>, size: nat)
    requires size > 0
    ensures |Chunks(s, size)| == CeilDiv(|s|, size)
    ensures forall i :: 0 <= i < |Chunks(s, size)| ==> 0 < |Chunks(s, size)[i]| <= size
    ensures forall i :: 0 <= i < |Chunks(s, size)| - 1 ==> |Chunks(s, size)[i]| == size
    decreases |s|
  {
    if |s| > 0 {
      var m := Min(size, |s|);
      ChunksShape(s[m..], size);
      if |s| <= size {
        assert |s[m..]| == 0;
        DivUnique(|s| + size - 1, size, 1, |s| - 1);
      } else {
        DivStep(|s|, size);
      }
    } else {
      DivUnique(size - 1, size, 0, size - 1);
    }
  }

  lemma {:induction false} SliceOfSlice<T>(s: seq<T>, m: nat, j: nat, hi: nat)
    requires m <= |s| && j <= hi <= |s| - m
    ensures s[m..][j..hi] == s[m + j..m + hi]
  {
  }

  /** Batch number k (from 0) is the slice that starts at k * size. */
  lemma {:induction false} ChunkAt<T>(s: seq<T>, size: nat, k: nat)
    requires size > 0 && k < |Chunks(s, size)|
    ensures k * size < |s|
    ensures Chunks(s, size)[k] == s[k * size .. Min(k * size + size, |s|)]
    decreases |s|
  {
    var m := Min(size, |s|);
    if k > 0 {
      ChunkAt(s[m..], size, k - 1);
      assert m == size;
      var j := (k - 1) * size;
      MulSplit(1, k - 1, size);
      var lo := k * size;
      assert lo == j + size;
      SliceOfSlice(s, m, j, Min(j + size, |s| - m));
    }
  }

  /** There is a batch number k exactly when k * size falls inside the list. */
  lemma {:induction false} ChunkCount<T>(s: seq<T>, size: nat, k: nat)
    requires size > 0
    ensures k < |Chunks(s, size)| <==> k * size < |s|
    decreases |s|
  {
    if |s| > 0 && k > 0 {
      var m := Min(size, |s|);
      ChunkCount(s[m..], size, k - 1);
      assert (k - 1) * size + size == k * size;
      if m < size {
        MulAtLeast(k, size);
      }
    }
  }

  /** The batch that starts at position i, then the batches after it. */
  lemma {:induction false} ChunksNext<T>(s: seq<T>, size: nat, i: nat)
    requires size > 0 && i < |s|
    ensures Chunks(s[i..], size) == [s[i..i + Min(size, |s| - i)]] + Chunks(s[i + Min(size, |s| - i)..], size)
  {
    var m := Min(size, |s| - i);
    assert s[i..][..m] == s[i..i + m];
    assert s[i..][m..] == s[i + m..];
  }
}
