/** Word lists with flags: the line format `word<sep>flags` shared by the Hunspell
    .dic extractor ('/') and the builders' word-list reader ('|'), and the reader
    itself, which keeps the first pair of each word. */
module WordList {
  import opened Text

  datatype Pair = Pair(word: string, flags: string)

  /** One line of a word list: blank lines and '#' comments (after stripping) give
      nothing; otherwise the stripped line splits at its first `sep` into a stripped
      word and stripped flags, and a line without `sep` is a word with flags "". */
  function ParseLine(line: string, sep: char): Option<Pair> {
    var s := Strip(line);
    if s == "" || s[0] == '#' then None
    else
      match SplitFirst(s, sep)
      case Some((w, f)) => Some(Pair(Strip(w), Strip(f)))
      case None => Some(Pair(s, ""))
  }

  /** What ParseLine keeps and what it yields: the word never holds `sep`, word and
      flags are trimmed, and a line without `sep` is all word. */
  lemma {:induction false} ParseLineSpec(line: string, sep: char)
    ensures var r := ParseLine(line, sep);
      && (r.None? <==> (Strip(line) == "" || Strip(line)[0] == '#'))
      && (r.Some? ==> sep !in r.value.word)
      && (r.Some? ==> Trimmed(r.value.word) && Trimmed(r.value.flags))
      && (r.Some? && sep !in Strip(line) ==> r.value == Pair(Strip(line), ""))
  {
    var s := Strip(line);
    if s != "" && s[0] != '#' {
      match SplitFirst(s, sep)
      case Some((w, f)) => StripNoNew(w, sep);
      case None =>
    }
  }

  lemma {:induction false} StripNoNew(s: string, c: char)
    requires c !in s
    ensures c !in Strip(s)
  {
    StripSlice(s);
    var a := Lead(s);
    forall i | 0 <= i < |Strip(s)| ensures Strip(s)[i] != c {
      assert Strip(s)[i] == s[a + i];
    }
  }

  /** A stripped word free of `sep` that does not start a comment, joined to stripped
      flags by `sep`, parses back to the same pair. */
  lemma {:induction false} ParseFormatted(w: string, f: string, sep: char)
    requires sep !in w && !IsSpace(sep)
    requires Trimmed(w) && Trimmed(f)
    requires w == [] || w[0] != '#'
    requires sep != '#'
    ensures ParseLine(w + [sep] + f, sep) == Some(Pair(w, f))
  {
    var line := w + [sep] + f;
    JoinedStripped(w, f, sep);
    assert line != "" && line[0] != '#' by {
      assert line[0] == if w == [] then sep else w[0];
    }
    assert SplitFirst(line, sep) == Some((w, f)) by {
      IndexOfPrefix(w, sep, f);
      assert line[..|w|] == w;
      assert line[|w| + 1..] == f;
    }
    StripUnchanged(w);
    StripUnchanged(f);
  }

  lemma {:induction false} JoinedStripped(w: string, f: string, sep: char)
    requires !IsSpace(sep) && Trimmed(w) && Trimmed(f)
    ensures Strip(w + [sep] + f) == w + [sep] + f
  {
    var line := w + [sep] + f;
    assert line[0] == if w == [] then sep else w[0];
    assert line[|line| - 1] == if f == [] then sep else f[|f| - 1];
    StripUnchanged(line);
  }

  /** The pairs of the non-blank, non-comment lines, in order, duplicates kept. */
  function ParseLines(lines: seq<string>, sep: char): (r: seq<Pair>)
    ensures |r| <= |lines|
    decreases |lines|
  {
    if lines == [] then []
    else
      var rest := ParseLines(lines[1..], sep);
      match ParseLine(lines[0], sep)
      case Some(p) => [p] + rest
      case None => rest
  }

  /** The pairs whose word is not in `seen` and did not occur before, in order:
      the first pair of each word. */
  function Dedup(ps: seq<Pair>, seen: set<string>): seq<Pair>
    decreases |ps|
  {
    if ps == [] then []
    else if ps[0].word in seen then Dedup(ps[1..], seen)
    else [ps[0]] + Dedup(ps[1..], seen + {ps[0].word})
  }

  function Words(ps: seq<Pair>): set<string>
    decreases |ps|
  {
    if ps == [] then {} else {ps[0].word} + Words(ps[1..])
  }

  lemma {:induction false} InWords(ps: seq<Pair>, w: string)
    ensures w in Words(ps) <==> FirstIndex(ps, w) < |ps|
    decreases |ps|
  {
    if ps != [] { InWords(ps[1..], w); }
  }

  ghost predicate DistinctWords(ps: seq<Pair>) {
    forall i, j :: 0 <= i < j < |ps| ==> ps[i].word != ps[j].word
  }

  /** Position of the first pair with word `w`, |ps| when there is none. */
  function FirstIndex(ps: seq<Pair>, w: string): (k: nat)
    ensures k <= |ps|
    ensures k < |ps| ==> ps[k].word == w
    ensures forall i :: 0 <= i < k ==> ps[i].word != w
    decreases |ps|
  {
    if ps == [] then 0 else if ps[0].word == w then 0 else 1 + FirstIndex(ps[1..], w)
  }

  /** Dedup keeps exactly the words not yet seen. */
  lemma {:induction false} DedupWords(ps: seq<Pair>, seen: set<string>)
    ensures Words(Dedup(ps, seen)) == Words(ps) - seen
    decreases |ps|
  {
    if ps != [] {
      DedupWords(ps[1..], seen + {ps[0].word});
      DedupWords(ps[1..], seen);
    }
  }

  /** No word occurs twice in what Dedup keeps. */
  lemma {:induction false} DedupDistinct(ps: seq<Pair>, seen: set<string>)
    ensures DistinctWords(Dedup(ps, seen))
    decreases |ps|
  {
    if ps != [] {
      var p := ps[0];
      if p.word in seen {
        DedupDistinct(ps[1..], seen);
      } else {
        var u := Dedup(ps[1..], seen + {p.word});
        DedupDistinct(ps[1..], seen + {p.word});
        DedupWords(ps[1..], seen + {p.word});
        var r := [p] + u;
        forall j | 0 <= j < |u| ensures u[j].word != p.word {
          InWords(u, u[j].word);
        }
        forall i, j | 0 <= i < j < |r| ensures r[i].word != r[j].word {
          assert r[j] == u[j - 1];
          if i > 0 { assert r[i] == u[i - 1]; }
        }
      }
    }
  }

  /** The words Dedup keeps after skipping `p` are other words than p's. */
  lemma {:induction false} DedupOthers(ps: seq<Pair>, seen: set<string>, p: Pair)
    requires p.word in seen
    ensures forall i :: 0 <= i < |Dedup(ps, seen)| ==> Dedup(ps, seen)[i].word != p.word
  {
    var r := Dedup(ps, seen);
    DedupWords(ps, seen);
    forall i | 0 <= i < |r| ensures r[i].word != p.word {
      InWords(r, r[i].word);
    }
  }

  /** Every pair of `r` is the first pair of its word in `ps`. */
  ghost predicate FirstPairs(ps: seq<Pair>, r: seq<Pair>) {
    forall i :: 0 <= i < |r| ==> FirstIndex(ps, r[i].word) < |ps| && ps[FirstIndex(ps, r[i].word)] == r[i]
  }

  /** The pairs of `r` come in the order in which their words first occur in `ps`. */
  ghost predicate InFirstOrder(ps: seq<Pair>, r: seq<Pair>) {
    forall i, j :: 0 <= i < j < |r| ==> FirstIndex(ps, r[i].word) < FirstIndex(ps, r[j].word)
  }

  /** Shifts the position of a word that is not the head's. */
  lemma {:induction false} FirstIndexTail(ps: seq<Pair>, w: string)
    requires ps != [] && ps[0].word != w
    ensures FirstIndex(ps, w) == 1 + FirstIndex(ps[1..], w)
  {
  }

  /** What Dedup keeps of each word is the first pair with that word. */
  lemma {:induction false} DedupFirst(ps: seq<Pair>, seen: set<string>)
    ensures FirstPairs(ps, Dedup(ps, seen))
    decreases |ps|
  {
    if ps != [] {
      var p, t := ps[0], ps[1..];
      var seen' := if p.word in seen then seen else seen + {p.word};
      var u := Dedup(t, seen');
      DedupFirst(t, seen');
      DedupOthers(t, seen', p);
      var r := Dedup(ps, seen);
      assert r == if p.word in seen then u else [p] + u;
      forall i | 0 <= i < |r| ensures FirstIndex(ps, r[i].word) < |ps| && ps[FirstIndex(ps, r[i].word)] == r[i] {
        var m := if p.word in seen then i else i - 1;
        if m >= 0 {
          assert r[i] == u[m];
          var k := FirstIndex(t, u[m].word);
          assert k < |t| && t[k] == u[m];
          FirstIndexTail(ps, u[m].word);
          assert ps[k + 1] == t[k];
        }
      }
    }
  }

  /** Dedup keeps pairs in the order in which their words first occur. */
  lemma {:induction false} DedupOrder(ps: seq<Pair>, seen: set<string>)
    ensures InFirstOrder(ps, Dedup(ps, seen))
    decreases |ps|
  {
    if ps != [] {
      var p, t := ps[0], ps[1..];
      var seen' := if p.word in seen then seen else seen + {p.word};
      var u := Dedup(t, seen');
      DedupOrder(t, seen');
      DedupOthers(t, seen', p);
      forall m | 0 <= m < |u| ensures FirstIndex(ps, u[m].word) == 1 + FirstIndex(t, u[m].word) {
        FirstIndexTail(ps, u[m].word);
      }
      if p.word !in seen {
        var r := [p] + u;
        forall i, j | 0 <= i < j < |r| ensures FirstIndex(ps, r[i].word) < FirstIndex(ps, r[j].word) {
          assert r[j] == u[j - 1];
          if i > 0 { assert r[i] == u[i - 1]; }
        }
      }
    }
  }

  lemma {:induction false} ParseLinesStep(lines: seq<string>, i: nat, sep: char, pairs: seq<Pair>)
    requires i < |lines| && pairs + ParseLines(lines[i..], sep) == ParseLines(lines, sep)
    ensures var next := match ParseLine(lines[i], sep) case Some(p) => pairs + [p] case None => pairs;
      next + ParseLines(lines[i + 1..], sep) == ParseLines(lines, sep)
  {
    assert lines[i..][1..] == lines[i + 1..];
  }

  lemma {:induction false} DedupStep(ps: seq<Pair>, k: nat, seen: set<string>, unique: seq<Pair>)
    requires k < |ps| && unique + Dedup(ps[k..], seen) == Dedup(ps, {})
    ensures ps[k].word in seen ==> unique + Dedup(ps[k + 1..], seen) == Dedup(ps, {})
    ensures ps[k].word !in seen ==> (unique + [ps[k]]) + Dedup(ps[k + 1..], seen + {ps[k].word}) == Dedup(ps, {})
  {
    assert ps[k..][1..] == ps[k + 1..];
  }

  /** load_word_list: parse every line and keep the first pair of each word. */
  method LoadWordList(lines: seq<string>) returns (unique: seq<Pair>)
    ensures unique == Dedup(ParseLines(lines, '|'), {})
  {
    var pairs: seq<Pair> := [];
    var i := 0;
    assert lines[0..] == lines;
    while i < |lines|
      invariant 0 <= i <= |lines|
      invariant pairs + ParseLines(lines[i..], '|') == ParseLines(lines, '|')
    {
      ParseLinesStep(lines, i, '|', pairs);
      match ParseLine(lines[i], '|') {
        case Some(p) => pairs := pairs + [p];
        case None =>
      }
      i := i + 1;
    }
    assert lines[|lines|..] == [];
    assert pairs == ParseLines(lines, '|');
    var seen: set<string> := {};
    unique := [];
    var k := 0;
    assert pairs[0..] == pairs;
    while k < |pairs|
      invariant 0 <= k <= |pairs|
      invariant unique + Dedup(pairs[k..], seen) == Dedup(pairs, {})
    {
      DedupStep(pairs, k, seen, unique);
      var p := pairs[k];
      if p.word !in seen {
        seen := seen + {p.word};
        unique := unique + [p];
      }
      k := k + 1;
    }
    assert pairs[|pairs|..] == [];
  }
}
