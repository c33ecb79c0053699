/** Python's ordering of str values (code point by code point, a proper prefix first)
    and sorted() applied to a set of strings. */
module Order {

  /** a < b between Python strings. */
  predicate Less(a: string, b: string)
    decreases |a|
  {
    if a == [] then b != []
    else if b == [] then false
    else if a[0] != b[0] then a[0] < b[0]
    else Less(a[1..], b[1..])
  }

  lemma {:induction false} LessIrreflexive(a: string)
    ensures !Less(a, a)
    decreases |a|
  {
    if a != [] { LessIrreflexive(a[1..]); }
  }

  lemma {:induction false} LessTransitive(a: string, b: string, c: string)
    requires Less(a, b) && Less(b, c)
    ensures Less(a, c)
    decreases |a|
  {
    if a != [] && b != [] && c != [] && a[0] == b[0] && b[0] == c[0] {
      LessTransitive(a[1..], b[1..], c[1..]);
    }
  }

  lemma {:induction false} LessTotal(a: string, b: string)
    requires a != b
    ensures Less(a, b) || Less(b, a)
    decreases |a|
  {
    if a != [] && b != [] && a[0] == b[0] {
      assert a == [a[0]] + a[1..] && b == [b[0]] + b[1..];
      LessTotal(a[1..], b[1..]);
    }
  }

  lemma {:induction false} LessAsymmetric(a: string, b: string)
    requires Less(a, b)
    ensures !Less(b, a)
  {
    if Less(b, a) {
      LessTransitive(a, b, a);
      LessIrreflexive(a);
    }
  }

  /** Strictly increasing: sorted and free of duplicates. */
  ghost predicate StrictlySorted(r: seq<string>) {
    forall i, j :: 0 <= i < j < |r| ==> Less(r[i], r[j])
  }

  function Elems(r: seq<string>): set<string> {
    set x | x in r
  }

  lemma {:induction false} ElemsCons(h: string, t: seq<string>)
    ensures Elems([h] + t) == {h} + Elems(t)
  {
    var s := [h] + t;
    forall x | x in Elems(s) ensures x in {h} + Elems(t) {
      var i :| 0 <= i < |s| && s[i] == x;
      if i > 0 { assert t[i - 1] == x; }
    }
  }

  /** Inserts x at its place in a strictly sorted list, unless it is there already. */
  function Insert(r: seq<string>, x: string): seq<string>
    decreases |r|
  {
    if r == [] then [x]
    else if x == r[0] then r
    else if Less(x, r[0]) then [x] + r
    else [r[0]] + Insert(r[1..], x)
  }

  lemma {:induction false} InsertElems(r: seq<string>, x: string)
    ensures Elems(Insert(r, x)) == Elems(r) + {x}
    decreases |r|
  {
    if r != [] && x != r[0] {
      assert r == [r[0]] + r[1..];
      ElemsCons(r[0], r[1..]);
      if Less(x, r[0]) {
        ElemsCons(x, r);
      } else {
        InsertElems(r[1..], x);
        ElemsCons(r[0], Insert(r[1..], x));
      }
    }
  }

  lemma {:induction false} InsertSorted(r: seq<string>, x: string)
    requires StrictlySorted(r)
    ensures StrictlySorted(Insert(r, x))
    decreases |r|
  {
    if r == [] {
    } else if x == r[0] {
    } else if Less(x, r[0]) {
      var t := [x] + r;
      forall i, j | 0 <= i < j < |t| ensures Less(t[i], t[j]) {
        if i == 0 && j > 1 { LessTransitive(x, r[0], r[j - 1]); }
      }
    } else {
      LessTotal(x, r[0]);
      InsertSorted(r[1..], x);
      InsertElems(r[1..], x);
      var u := Insert(r[1..], x);
      forall k | 0 <= k < |u| ensures Less(r[0], u[k]) {
        assert u[k] in Elems(u);
        if u[k] != x {
          var m :| 0 <= m < |r[1..]| && r[1..][m] == u[k];
          assert r[m + 1] == u[k];
        }
      }
      var t := [r[0]] + u;
      forall i, j | 0 <= i < j < |t| ensures Less(t[i], t[j]) {
        if i > 0 { assert t[i] == u[i - 1] && t[j] == u[j - 1]; }
      }
    }
  }

  /** sorted(words) for a set of words. */
  method SortedList(words: set<string>) returns (r: seq<string>)
    ensures StrictlySorted(r)
    ensures Elems(r) == words
  {
    r := [];
    var rest := words;
    while rest != {}
      invariant StrictlySorted(r)
      invariant Elems(r) + rest == words
      decreases |rest|
    {
      var x :| x in rest;
      InsertSorted(r, x);
      InsertElems(r, x);
      r := Insert(r, x);
      rest := rest - {x};
    }
  }

  lemma {:induction false} ElemsEmpty(s: seq<string>)
    ensures Elems(s) == {} <==> s == []
  {
    if s != [] { assert s[0] in Elems(s); }
  }

  /** The head of a strictly sorted list is below every other element. */
  lemma {:induction false} HeadIsLeast(s: seq<string>, x: string)
    requires StrictlySorted(s) && x in Elems(s) && s != [] && x != s[0]
    ensures Less(s[0], x)
  {
    var i :| 0 <= i < |s| && s[i] == x;
  }

  /** A strictly sorted list is determined by its elements: sorted() has exactly one
      possible result. */
  lemma {:induction false} SortedUnique(a: seq<string>, b: seq<string>)
    requires StrictlySorted(a) && StrictlySorted(b)
    requires Elems(a) == Elems(b)
    ensures a == b
    decreases |a|
  {
    if a != [] && b != [] {
      if a[0] != b[0] {
        HeadIsLeast(b, a[0]);
        HeadIsLeast(a, b[0]);
        LessAsymmetric(a[0], b[0]);
        assert false;
      } else {
        LessIrreflexive(a[0]);
        forall x | x in Elems(a[1..]) ensures x in Elems(b[1..]) {
          var i :| 1 <= i < |a| && a[i] == x;
          assert x != a[0];
          assert x in Elems(b);
          var k :| 0 <= k < |b| && b[k] == x;
          assert b[1..][k - 1] == x;
        }
        forall x | x in Elems(b[1..]) ensures x in Elems(a[1..]) {
          var i :| 1 <= i < |b| && b[i] == x;
          assert x != b[0];
          assert x in Elems(a);
          var k :| 0 <= k < |a| && a[k] == x;
          assert a[1..][k - 1] == x;
        }
        SortedUnique(a[1..], b[1..]);
        assert a == [a[0]] + a[1..] && b == [b[0]] + b[1..];
      }
    } else {
      ElemsEmpty(a);
      ElemsEmpty(b);
    }
  }

  /** No element is repeated. */
  predicate Distinct(r: seq<string>) {
    forall i, j :: 0 <= i < j < |r| ==> r[i] != r[j]
  }

  /** r lists the members of s, each once: what `for k in d` and `list(s)` go through
      for a dictionary d with keys s, or a set s. */
  predicate ListsOnce(r: seq<string>, s: set<string>) {
    Elems(r) == s && Distinct(r)
  }

  /** A list without repeats has as many elements as its set. */
  lemma {:induction false} DistinctCount(s: seq<string>)
    requires Distinct(s)
    ensures |Elems(s)| == |s|
    decreases |s|
  {
    if s != [] {
      assert Distinct(s[1..]) by {
        forall i, j | 0 <= i < j < |s[1..]| ensures s[1..][i] != s[1..][j] {
          assert s[1..][i] == s[i + 1] && s[1..][j] == s[j + 1];
        }
      }
      DistinctCount(s[1..]);
      assert s == [s[0]] + s[1..];
      ElemsCons(s[0], s[1..]);
      forall k | 0 <= k < |s[1..]| ensures s[1..][k] != s[0] {
        assert s[1..][k] == s[k + 1];
      }
    } else {
      ElemsEmpty(s);
    }
  }

  /** A strictly sorted list holds each of its elements once. */
  lemma {:induction false} SortedCount(s: seq<string>)
    requires StrictlySorted(s)
    ensures |Elems(s)| == |s|
  {
    forall i, j | 0 <= i < j < |s| ensures s[i] != s[j] {
      LessIrreflexive(s[i]);
    }
    DistinctCount(s);
  }
}
