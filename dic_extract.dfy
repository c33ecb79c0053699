/** The Hunspell .dic extractor (extract_words.py): it reads the dictionary's lines,
    splits each entry at '/' into a word and its affix flags, and writes the
    `word|flags` list that the builders' word-list reader consumes, plus a list of
    the words alone. Lines are given as text, already decoded. */
module DicExtract {
  import opened Text
  import opened WordList

  /** readlines()[1:]: the first line, the entry count, is dropped whatever it holds. */
  function Body(lines: seq<string>): seq<string> {
    if lines == [] then [] else lines[1..]
  }

  /** The pairs the extractor collects, in order, duplicates kept. */
  function Extracted(lines: seq<string>): seq<Pair> {
    ParseLines(Body(lines), '/')
  }

  /** extract_spanish_words' loop over the lines after the first. */
  method ExtractSpanishWords(lines: seq<string>) returns (pairs: seq<Pair>)
    ensures pairs == Extracted(lines)
  {
    var body := if |lines| == 0 then [] else lines[1..];
    assert body == Body(lines);
    pairs := [];
    var i := 0;
    assert body[0..] == body;
    while i < |body|
      invariant 0 <= i <= |body|
      invariant pairs + ParseLines(body[i..], '/') == ParseLines(body, '/')
    {
      ParseLinesStep(body, i, '/', pairs);
      match ParseLine(body[i], '/') {
        case Some(p) => pairs := pairs + [p];
        case None =>
      }
      i := i + 1;
    }
    assert body[|body|..] == [];
    assert pairs == ParseLines(body, '/');
  }

  /** The first line never contributes, even when it looks like an entry. */
  lemma {:induction false} FirstLineDropped(first: string, rest: seq<string>)
    ensures Extracted([first] + rest) == ParseLines(rest, '/')
  {
    assert ([first] + rest)[1..] == rest;
  }

  // ---- The word|flags file ----

  /** f'{word}|{flags}', without its newline. */
  function FlagLine(p: Pair): string {
    p.word + "|" + p.flags
  }

  function FlagLines(pairs: seq<Pair>): (r: seq<string>)
    ensures |r| == |pairs| && forall i :: 0 <= i < |pairs| ==> r[i] == FlagLine(pairs[i])
    decreases |pairs|
  {
    if pairs == [] then [] else [FlagLine(pairs[0])] + FlagLines(pairs[1..])
  }

  /** The contents of spanish_words_with_flags.txt. */
  function FlagsFile(pairs: seq<Pair>): string {
    Terminated(FlagLines(pairs))
  }

  /** The writing loop: one `word|flags\n` line per pair, in order. */
  method WriteFlagsFile(pairs: seq<Pair>) returns (text: string)
    ensures text == FlagsFile(pairs)
  {
    text := "";
    for k := 0 to |pairs|
      invariant text == Terminated(FlagLines(pairs[..k]))
    {
      assert FlagLines(pairs[..k + 1]) == FlagLines(pairs[..k]) + [FlagLine(pairs[k])];
      TerminatedSnoc(FlagLines(pairs[..k]), FlagLine(pairs[k]));
      text := text + (pairs[k].word + "|" + pairs[k].flags + "\n");
    }
    assert pairs[..|pairs|] == pairs;
  }

  /** The contents of spanish_words_from_dic.txt: the words joined by '\n', with no
      newline after the last. */
  function WordsOnly(pairs: seq<Pair>): string {
    Join("\n", WordSeq(pairs))
  }

  function WordSeq(pairs: seq<Pair>): (r: seq<string>)
    ensures |r| == |pairs| && forall i :: 0 <= i < |pairs| ==> r[i] == pairs[i].word
    decreases |pairs|
  {
    if pairs == [] then [] else [pairs[0].word] + WordSeq(pairs[1..])
  }

  // ---- What the extracted pairs look like ----

  /** A pair the extractor can produce from a line without '\n': trimmed word and
      flags, no '/' in the word, no newline anywhere, and a word that does not start
      a comment. */
  predicate WellFormed(p: Pair) {
    && Trimmed(p.word) && Trimmed(p.flags)
    && '/' !in p.word
    && '\n' !in p.word && '\n' !in p.flags
    && (p.word == [] || p.word[0] != '#')
  }

  lemma {:induction false} ParsedWellFormed(line: string)
    requires '\n' !in line
    ensures ParseLine(line, '/').Some? ==> WellFormed(ParseLine(line, '/').value)
  {
    var s := Strip(line);
    ParseLineSpec(line, '/');
    StripNoNew(line, '\n');
    if s != "" && s[0] != '#' {
      match SplitFirst(s, '/')
      case Some((w, f)) =>
        assert '\n' !in w && '\n' !in f by {
          assert forall i :: 0 <= i < |w| ==> w[i] == s[i];
          assert forall i :: 0 <= i < |f| ==> f[i] == s[|w| + 1 + i];
        }
        StripNoNew(w, '\n');
        StripNoNew(f, '\n');
        if Strip(w) != [] {
          assert w != [] && w[0] == s[0];
          assert LStrip(w) == w;
          StripSlice(w);
          assert Strip(w)[0] == w[0];
        }
      case None =>
    }
  }

  lemma {:induction false} ExtractedWellFormed(lines: seq<string>)
    requires forall i :: 0 <= i < |lines| ==> '\n' !in lines[i]
    ensures forall i :: 0 <= i < |ParseLines(lines, '/')| ==> WellFormed(ParseLines(lines, '/')[i])
    decreases |lines|
  {
    if lines != [] {
      ExtractedWellFormed(lines[1..]);
      ParsedWellFormed(lines[0]);
      var rest := ParseLines(lines[1..], '/');
      match ParseLine(lines[0], '/') {
        case Some(p) =>
          var r := [p] + rest;
          assert ParseLines(lines, '/') == r;
          forall i | 0 <= i < |r| ensures WellFormed(r[i]) {
            if i > 0 { assert r[i] == rest[i - 1]; }
          }
        case None =>
      }
    }
  }

  /** Written lines of well-formed pairs whose words hold no '|' read back, at '|',
      as the same pairs. */
  lemma {:induction false} FlagLinesParse(pairs: seq<Pair>)
    requires forall i :: 0 <= i < |pairs| ==> WellFormed(pairs[i]) && '|' !in pairs[i].word
    ensures ParseLines(FlagLines(pairs), '|') == pairs
    decreases |pairs|
  {
    if pairs != [] {
      var p := pairs[0];
      assert "|" == ['|'];
      ParseFormatted(p.word, p.flags, '|');
      assert FlagLines(pairs)[1..] == FlagLines(pairs[1..]);
      FlagLinesParse(pairs[1..]);
    }
  }

  lemma {:induction false} FlagLinesFree(pairs: seq<Pair>)
    requires forall i :: 0 <= i < |pairs| ==> WellFormed(pairs[i])
    ensures forall i :: 0 <= i < |FlagLines(pairs)| ==> '\n' !in FlagLines(pairs)[i]
  {
    forall i | 0 <= i < |pairs| ensures '\n' !in FlagLines(pairs)[i] {
      var p := pairs[i];
      var l := p.word + "|" + p.flags;
      forall k | 0 <= k < |l| ensures l[k] != '\n' {
        if k < |p.word| { assert l[k] == p.word[k]; }
        else if k > |p.word| { assert l[k] == p.flags[k - |p.word| - 1]; }
      }
    }
  }

  /** The round trip with the builders' reader: when the .dic lines hold no newline and
      no extracted word holds '|', the written word|flags file, read line by line and
      parsed at '|', gives back exactly the extracted pairs, so load_word_list turns
      it into the extracted pairs with the later repeats of a word dropped. */
  lemma {:induction false} ReadBack(lines: seq<string>)
    requires forall i :: 0 <= i < |lines| ==> '\n' !in lines[i]
    requires forall i :: 0 <= i < |Extracted(lines)| ==> '|' !in Extracted(lines)[i].word
    ensures ParseLines(SplitLines(FlagsFile(Extracted(lines))), '|') == Extracted(lines)
    ensures Dedup(ParseLines(SplitLines(FlagsFile(Extracted(lines))), '|'), {}) == Dedup(Extracted(lines), {})
  {
    var body := Body(lines);
    assert forall i :: 0 <= i < |body| ==> '\n' !in body[i] by {
      forall i | 0 <= i < |body| ensures '\n' !in body[i] {
        assert body[i] == lines[i + 1];
      }
    }
    var ps := Extracted(lines);
    ExtractedWellFormed(body);
    FlagLinesFree(ps);
    TerminatedLines(FlagLines(ps));
    FlagLinesParse(ps);
  }

  /** The words-only file lists the words one per line, when the last word is not
      empty. */
  lemma {:induction false} WordsOnlyLines(lines: seq<string>)
    requires forall i :: 0 <= i < |lines| ==> '\n' !in lines[i]
    requires Extracted(lines) == [] || Extracted(lines)[|Extracted(lines)| - 1].word != ""
    ensures SplitLines(WordsOnly(Extracted(lines))) == WordSeq(Extracted(lines))
  {
    var body := Body(lines);
    assert forall i :: 0 <= i < |body| ==> '\n' !in body[i] by {
      forall i | 0 <= i < |body| ensures '\n' !in body[i] {
        assert body[i] == lines[i + 1];
      }
    }
    ExtractedWellFormed(body);
    SplitLinesJoin(WordSeq(Extracted(lines)));
  }
}
