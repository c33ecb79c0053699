/** The Tatoeba word extractor (extract_words_from_tatoeba.py): from a tab-separated
    file of sentence pairs it collects the set of words of the Spanish sentences (the
    second column), sorts it and writes one word per line. The word tokenizer (a
    regular expression of Python's `re`) and Unicode lower-casing are parameters. */
module Tatoeba {
  import opened Text
  import opened Order

  /** The words one line contributes: none for a blank line or a line with fewer than
      two tab-separated fields; otherwise the tokens of field 1, lower-cased. The line
      is stripped first, so the tabs at its ends do not count as separators. */
  function LineWords(lower: string -> string, findall: string -> seq<string>, line: string): seq<string> {
    var l := Strip(line);
    if l == "" then []
    else
      var parts := Split(l, '\t');
      if |parts| >= 2 then findall(lower(parts[1])) else []
  }

  /** The words of each line, line by line. */
  function PerLine(lower: string -> string, findall: string -> seq<string>, lines: seq<string>): (r: seq<seq<string>>)
    ensures |r| == |lines| && forall i :: 0 <= i < |lines| ==> r[i] == LineWords(lower, findall, lines[i])
    decreases |lines|
  {
    if lines == [] then []
    else PerLine(lower, findall, lines[..|lines| - 1]) + [LineWords(lower, findall, lines[|lines| - 1])]
  }

  /** set().update(ws[0]) ... .update(ws[n - 1]) */
  function Union(ws: seq<seq<string>>): set<string>
    decreases |ws|
  {
    if ws == [] then {} else Union(ws[..|ws| - 1]) + Elems(ws[|ws| - 1])
  }

  /** The set spanish_words after the line loop. */
  function Collected(lower: string -> string, findall: string -> seq<string>, lines: seq<string>): set<string> {
    Union(PerLine(lower, findall, lines))
  }

  /** One more line adds the words it contributes. */
  lemma {:induction false} CollectedNext(lower: string -> string, findall: string -> seq<string>, lines: seq<string>, k: nat)
    requires k < |lines|
    ensures Collected(lower, findall, lines[..k + 1])
         == Collected(lower, findall, lines[..k]) + Elems(LineWords(lower, findall, lines[k]))
  {
    assert lines[..k + 1][..k] == lines[..k];
    var ws := PerLine(lower, findall, lines[..k + 1]);
    assert ws[..|ws| - 1] == PerLine(lower, findall, lines[..k]);
  }

  /** extract_words_from_tatoeba_tsv: the returned list and the text written. */
  method ExtractWords(lower: string -> string, findall: string -> seq<string>, lines: seq<string>)
    returns (sortedWords: seq<string>, written: string)
    ensures StrictlySorted(sortedWords)
    ensures Elems(sortedWords) == Collected(lower, findall, lines)
    ensures written == Terminated(sortedWords)
  {
    var spanishWords: set<string> := {};
    for k := 0 to |lines|
      invariant spanishWords == Collected(lower, findall, lines[..k])
    {
      CollectedNext(lower, findall, lines, k);
      var line := Strip(lines[k]);
      if line == "" {
        continue;
      }
      var parts := Split(line, '\t');
      if |parts| >= 2 {
        var words := findall(lower(parts[1]));
        spanishWords := spanishWords + Elems(words);
      }
    }
    assert lines[..|lines|] == lines;
    sortedWords := SortedList(spanishWords);
    written := WriteWords(sortedWords);
  }

  /** The output loop: each word followed by a newline. */
  method WriteWords(words: seq<string>) returns (written: string)
    ensures written == Terminated(words)
  {
    written := "";
    for k := 0 to |words|
      invariant written == Terminated(words[..k])
    {
      assert words[..k + 1] == words[..k] + [words[k]];
      TerminatedSnoc(words[..k], words[k]);
      written := written + words[k] + "\n";
    }
    assert words[..|words|] == words;
  }

  lemma {:induction false} UnionMembers(ws: seq<seq<string>>, w: string)
    ensures w in Union(ws) <==> exists i :: 0 <= i < |ws| && w in ws[i]
    decreases |ws|
  {
    if ws != [] {
      var n := |ws| - 1;
      var init := ws[..n];
      UnionMembers(init, w);
      if w in Union(init) {
        var i :| 0 <= i < |init| && w in init[i];
        assert ws[i] == init[i];
      }
      if exists i :: 0 <= i < |ws| && w in ws[i] {
        var i :| 0 <= i < |ws| && w in ws[i];
        if i < n { assert init[i] == ws[i]; }
      }
    }
  }

  /** A word is collected exactly when some line contributes it. */
  lemma {:induction false} CollectedMembers(lower: string -> string, findall: string -> seq<string>, lines: seq<string>, w: string)
    ensures w in Collected(lower, findall, lines) <==>
      exists i :: 0 <= i < |lines| && w in LineWords(lower, findall, lines[i])
  {
    var ws := PerLine(lower, findall, lines);
    UnionMembers(ws, w);
    if exists i :: 0 <= i < |ws| && w in ws[i] {
      var i :| 0 <= i < |ws| && w in ws[i];
      assert w in LineWords(lower, findall, lines[i]);
    }
    if exists i :: 0 <= i < |lines| && w in LineWords(lower, findall, lines[i]) {
      var i :| 0 <= i < |lines| && w in LineWords(lower, findall, lines[i]);
      assert w in ws[i];
    }
  }

  /** A blank line, or one with fewer than two fields, adds no word. */
  lemma {:induction false} LineIgnored(lower: string -> string, findall: string -> seq<string>, lines: seq<string>, line: string)
    requires Strip(line) == "" || |Split(Strip(line), '\t')| < 2
    ensures Collected(lower, findall, lines + [line]) == Collected(lower, findall, lines)
  {
    var ls := lines + [line];
    assert ls[..|lines|] == lines;
    assert PerLine(lower, findall, ls) == PerLine(lower, findall, lines) + [[]];
    assert Elems([]) == {};
  }

  /** The output is the only strictly sorted list of the collected words, holds each
      once, and, when no word holds a newline, the written file's lines are exactly the
      returned list. */
  lemma {:induction false} OutputSpec(words: set<string>, sortedWords: seq<string>, other: seq<string>)
    requires StrictlySorted(sortedWords) && Elems(sortedWords) == words
    requires StrictlySorted(other) && Elems(other) == words
    ensures sortedWords == other
    ensures |sortedWords| == |words|
    ensures (forall w :: w in words ==> '\n' !in w) ==> SplitLines(Terminated(sortedWords)) == sortedWords
  {
    SortedUnique(sortedWords, other);
    SortedCount(sortedWords);
    if forall w :: w in words ==> '\n' !in w {
      forall i | 0 <= i < |sortedWords| ensures '\n' !in sortedWords[i] {
        assert sortedWords[i] in words;
      }
      TerminatedLines(sortedWords);
    }
  }
}
