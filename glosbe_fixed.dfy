/** The sequential variant of the Glosbe builder (glosbe_dictionary_builder_fixed.py):
    the Glosbe translation with a Google Translate fallback, words processed one after
    the other in batches, a word list deduplicated through a set, and a CSV export.
    The servers are an oracle giving, for each word, what each of the three calls
    got back. */
module GlosbeFixed {
  import opened Text
  import opened Yomitan
  import Chunking
  import Reorder
  import Order
  import ProblemReport
  import GlosbeClient
  import Original = GlosbeBuilder

  /** What the three client calls got for one word: the parsed body of the Glosbe
      translator reply, the parsed body of the Google reply and the phrase entries of
      the similar-phrases reply; None where the request raised or the body was not
      JSON. */
  datatype Replies = Replies(
    glosbe: Option<Json>,
    google: Option<Json>,
    phrases: Option<seq<GlosbeClient.PhraseData>>)

  // ---- The client's result checks ----

  /** data.get('translation', ''): None where it raises, because the body is missing
      or is not an object. */
  function TranslationField(reply: Option<Json>): Option<Json> {
    if reply.Some? && reply.value.JObj? then Some(OrElse(Get(reply.value.fields, "translation"), JStr(""))) else None
  }

  /** get_translation: the stripped `translation` field, None when it strips to
      nothing, is missing or empty, or is not a string (whose .strip() raises). */
  function GetTranslation(reply: Option<Json>): (r: Option<string>)
    ensures r.Some? <==> (TranslationField(reply).Some? && TranslationField(reply).value.JStr?
      && Strip(TranslationField(reply).value.s) != "")
    ensures r.Some? ==> r.value == Strip(TranslationField(reply).value.s) && r.value != "" && Trimmed(r.value)
  {
    match TranslationField(reply)
    case Some(JStr(s)) => if Strip(s) != "" then Some(Strip(s)) else None
    case _ => None
  }

  /** An object reply names its translation; a missing key, an exception and a body
      that is not an object give none. */
  lemma {:induction false} GetTranslationCases(t: string, fields: seq<(string, Json)>, items: seq<Json>)
    ensures GetTranslation(Some(JObj([("translation", JStr(t))]))) == (if Strip(t) != "" then Some(Strip(t)) else None)
    ensures (forall i :: 0 <= i < |fields| ==> fields[i].0 != "translation") ==> GetTranslation(Some(JObj(fields))) == None
    ensures GetTranslation(None) == None && GetTranslation(Some(JArr(items))) == None
  {
    assert [("translation", JStr(t))][..0] == [];
    StripEmpty();
  }

  lemma {:induction false} StripEmpty()
    ensures Strip("") == ""
  {
  }

  /** get_google_translation: a non-empty list whose first element is a string gives
      that string stripped, None when it strips to nothing; anything else gives None
      (a first element that is not a string makes .strip() raise). */
  function GetGoogleTranslation(reply: Option<Json>): (r: Option<string>)
    ensures r.Some? <==> (reply.Some? && reply.value.JArr? && |reply.value.items| > 0
      && reply.value.items[0].JStr? && Strip(reply.value.items[0].s) != "")
    ensures r.Some? ==> r.value == Strip(reply.value.items[0].s) && r.value != "" && Trimmed(r.value)
  {
    if reply.Some? && reply.value.JArr? && |reply.value.items| > 0 then
      match reply.value.items[0]
      case JStr(s) => if Strip(s) != "" then Some(Strip(s)) else None
      case _ => None
    else None
  }

  /** translate_a/t answers ["놀다"]: the first string of the list is taken, the
      rest ignored. */
  lemma {:induction false} GoogleFirstElement(t: string, rest: seq<Json>, fields: seq<(string, Json)>)
    ensures GetGoogleTranslation(Some(JArr([JStr(t)] + rest))) == (if Strip(t) != "" then Some(Strip(t)) else None)
    ensures GetGoogleTranslation(Some(JArr([]))) == None
    ensures GetGoogleTranslation(Some(JObj(fields))) == None
  {
    assert ([JStr(t)] + rest)[0] == JStr(t);
  }

  /** get_similar_phrases: the kept phrases, at most five; [] when the request failed. */
  function Examples(word: string, phrases: Option<seq<GlosbeClient.PhraseData>>): (r: seq<string>)
    ensures |r| <= 5
    ensures phrases.None? ==> r == []
    ensures phrases.Some? ==> |r| <= |GlosbeClient.KeptPhrases(word, phrases.value)|
    ensures phrases.Some? ==> r == GlosbeClient.KeptPhrases(word, phrases.value)[..|r|]
    ensures phrases.Some? && |r| < 5 ==> r == GlosbeClient.KeptPhrases(word, phrases.value)
  {
    if phrases.Some? then GlosbeClient.SimilarPhrases(word, phrases.value) else []
  }

  method GetSimilarPhrases(word: string, phrases: Option<seq<GlosbeClient.PhraseData>>) returns (r: seq<string>)
    ensures r == Examples(word, phrases)
  {
    if phrases.None? {
      return [];
    }
    var kept := GlosbeClient.FilterPhrases(word, phrases.value);
    r := Take(kept, 5);
  }

  // ---- process_word ----

  /** `not translation`: no text, or the empty text. */
  predicate Falsy(t: Option<string>) {
    t.None? || t.value == ""
  }

  /** Whether process_word asks Google: only when Glosbe gave no translation. */
  predicate AsksGoogle(r: Replies) {
    Falsy(GetTranslation(r.glosbe))
  }

  /** The text process_word validates: Glosbe's, or Google's when it asked Google. */
  function Candidate(r: Replies): Option<string> {
    if AsksGoogle(r) then GetGoogleTranslation(r.google) else GetTranslation(r.glosbe)
  }

  /** The validation: a text shorter than two characters once stripped is no
      translation; a translation is returned stripped. */
  function Validate(t: Option<string>): (v: Option<string>)
    ensures v.Some? <==> (t.Some? && |Strip(t.value)| >= 2)
    ensures v.Some? ==> v.value == Strip(t.value) && Trimmed(v.value)
  {
    if t.None? || |Strip(t.value)| < 2 then None else Some(Strip(t.value))
  }

  function Translation(r: Replies): Option<string> {
    Validate(Candidate(r))
  }

  /** Glosbe's translation wins whenever it has two characters or more; Google's is
      used only when Glosbe has none; a one-character Glosbe translation makes the
      word problematic without Google being asked; a translation always has at least
      two characters and no surrounding whitespace. */
  lemma {:induction false} TranslationSpec(r: Replies)
    ensures GetTranslation(r.glosbe).Some? ==> !AsksGoogle(r)
    ensures GetTranslation(r.glosbe).Some? ==>
      Translation(r) == (if |GetTranslation(r.glosbe).value| >= 2 then GetTranslation(r.glosbe) else None)
    ensures GetTranslation(r.glosbe).None? ==> AsksGoogle(r)
    ensures GetTranslation(r.glosbe).None? ==>
      Translation(r) == (if GetGoogleTranslation(r.google).Some? && |GetGoogleTranslation(r.google).value| >= 2
                         then GetGoogleTranslation(r.google) else None)
    ensures Translation(r).Some? ==> |Translation(r).value| >= 2 && Trimmed(Translation(r).value)
  {
    var g := GetTranslation(r.glosbe);
    if g.Some? {
      StripUnchanged(g.value);
    }
    var h := GetGoogleTranslation(r.google);
    if h.Some? {
      StripUnchanged(h.value);
    }
  }

  // ---- The sequential run ----

  /** A value of the results dictionary: (translation, examples). */
  datatype Entry = Entry(translation: string, examples: seq<string>)

  /** The fields, this run's results and the snapshots saved so far, oldest first. */
  datatype Run = Run(book: Original.Book, results: map<string, Entry>, saves: seq<Original.Snapshot>)

  /** One word of a batch: a processed word is skipped; otherwise the word gets its
      result, translation and examples when a translation came back, becomes
      problematic when none did, and is processed either way. */
  function Visit(run: Run, w: string, r: Replies): Run {
    var b := run.book;
    if w in b.processed then run
    else
      var t, ex := Translation(r), Examples(w, r.phrases);
      if t.Some? then
        Run(b.(translations := b.translations[w := t.value], examples := b.examples[w := ex], processed := b.processed + {w}),
            run.results[w := Entry(t.value, ex)], run.saves)
      else
        Run(b.(processed := b.processed + {w}, problematic := b.problematic + {w}), run.results, run.saves)
  }

  function VisitStep(replies: string -> Replies): (Run, string) -> Run {
    (run: Run, w: string) => Visit(run, w, replies(w))
  }

  function Saved(run: Run): Run {
    run.(saves := run.saves + [Original.Snapshot(run.book, |run.results|)])
  }

  /** One batch: its words one after the other, then one snapshot. */
  function Batch(run: Run, batch: seq<string>, replies: string -> Replies): Run {
    Saved(Reorder.Fold(VisitStep(replies), run, batch))
  }

  function BatchStep(replies: string -> Replies): (Run, seq<string>) -> Run {
    (run: Run, batch: seq<string>) => Batch(run, batch, replies)
  }

  /** process_words: the batches of `size` consecutive words, one after the other. */
  function ProcessAll(run: Run, words: seq<string>, size: nat, replies: string -> Replies): Run
    requires size > 0
  {
    Reorder.Fold(BatchStep(replies), run, Chunking.Chunks(words, size))
  }

  /** The batches from position i on, folded onto `run`. */
  function Remaining(run: Run, words: seq<string>, i: nat, size: nat, replies: string -> Replies): Run
    requires size > 0 && i <= |words|
  {
    Reorder.Fold(BatchStep(replies), run, Chunking.Chunks(words[i..], size))
  }

  lemma {:induction false} RemainingNext(run: Run, next: Run, words: seq<string>, i: nat, size: nat, replies: string -> Replies)
    requires size > 0 && i < |words|
    requires next == Batch(run, words[i..i + Chunking.Min(size, |words| - i)], replies)
    ensures Remaining(run, words, i, size, replies) == Remaining(next, words, i + Chunking.Min(size, |words| - i), size, replies)
  {
    var m := Chunking.Min(size, |words| - i);
    Chunking.ChunksNext(words, size, i);
    Reorder.FoldCons(BatchStep(replies), run, words[i..i + m], Chunking.Chunks(words[i + m..], size));
    assert BatchStep(replies)(run, words[i..i + m]) == Batch(run, words[i..i + m], replies);
  }

  lemma {:induction false} RemainingEnds(run: Run, words: seq<string>, size: nat, replies: string -> Replies)
    requires size > 0
    ensures Remaining(run, words, 0, size, replies) == ProcessAll(run, words, size, replies)
    ensures Remaining(run, words, |words|, size, replies) == run
  {
    assert words[0..] == words;
    assert Chunking.Chunks(words[|words|..], size) == [];
  }

  // ---- What a run records ----

  /** Measured from the start of the run: every word newly processed has a result
      exactly when its translation came back, holding that translation and its
      examples, and has become problematic exactly when none did; the translations
      and examples agree with the results; nothing else became problematic. */
  ghost predicate Accounted(run: Run, start: Run, replies: string -> Replies) {
    && start.book.processed <= run.book.processed
    && start.book.problematic <= run.book.problematic
    && (forall w :: w in run.results <==>
         (w in run.book.processed && w !in start.book.processed && Translation(replies(w)).Some?))
    && (forall w :: w in run.results ==>
         && run.results[w] == Entry(Translation(replies(w)).value, Examples(w, replies(w).phrases))
         && w in run.book.translations && run.book.translations[w] == run.results[w].translation
         && w in run.book.examples && run.book.examples[w] == run.results[w].examples)
    && (forall w :: w in run.book.problematic <==>
         (w in start.book.problematic
          || (w in run.book.processed && w !in start.book.processed && Translation(replies(w)).None?)))
  }

  lemma {:induction false} VisitAccounted(run: Run, start: Run, w: string, replies: string -> Replies)
    requires Accounted(run, start, replies)
    ensures Accounted(Visit(run, w, replies(w)), start, replies)
  {
    if w !in run.book.processed {
      assert w !in start.book.processed;
      if Translation(replies(w)).Some? {
        VisitTranslated(run, start, w, replies);
      } else {
        VisitUntranslated(run, start, w, replies);
      }
    }
  }

  lemma {:induction false} VisitTranslated(run: Run, start: Run, w: string, replies: string -> Replies)
    requires Accounted(run, start, replies)
    requires w !in run.book.processed && w !in start.book.processed && Translation(replies(w)).Some?
    ensures Accounted(Visit(run, w, replies(w)), start, replies)
  {
    var r := Visit(run, w, replies(w));
    var b := run.book;
    assert r.book.processed == b.processed + {w};
    assert r.book.problematic == b.problematic;
    forall v ensures v in r.results <==> (v in r.book.processed && v !in start.book.processed && Translation(replies(v)).Some?) {
      assert v in r.results <==> v in run.results || v == w;
    }
    forall v | v in r.results
      ensures && r.results[v] == Entry(Translation(replies(v)).value, Examples(v, replies(v).phrases))
              && v in r.book.translations && r.book.translations[v] == r.results[v].translation
              && v in r.book.examples && r.book.examples[v] == r.results[v].examples
    {
      if v != w { assert v in run.results; }
    }
    forall v ensures v in r.book.problematic <==>
         (v in start.book.problematic
          || (v in r.book.processed && v !in start.book.processed && Translation(replies(v)).None?))
    {
      assert v in b.problematic <==>
         (v in start.book.problematic
          || (v in b.processed && v !in start.book.processed && Translation(replies(v)).None?));
    }
  }

  lemma {:induction false} VisitUntranslated(run: Run, start: Run, w: string, replies: string -> Replies)
    requires Accounted(run, start, replies)
    requires w !in run.book.processed && w !in start.book.processed && Translation(replies(w)).None?
    ensures Accounted(Visit(run, w, replies(w)), start, replies)
  {
    var r := Visit(run, w, replies(w));
    var b := run.book;
    assert r.results == run.results && r.book.translations == b.translations && r.book.examples == b.examples;
    assert r.book.processed == b.processed + {w};
    assert r.book.problematic == b.problematic + {w};
    forall v ensures v in r.results <==> (v in r.book.processed && v !in start.book.processed && Translation(replies(v)).Some?) {
      if v == w { assert w !in run.results; }
    }
  }

  lemma {:induction false} BatchAccounted(run: Run, start: Run, batch: seq<string>, replies: string -> Replies)
    requires Accounted(run, start, replies)
    ensures Accounted(Batch(run, batch, replies), start, replies)
  {
    var inv := (t: Run) => Accounted(t, start, replies);
    forall t: Run, w: string | w in batch && inv(t) ensures inv(VisitStep(replies)(t, w)) {
      VisitAccounted(t, start, w, replies);
    }
    Reorder.FoldPreserves(VisitStep(replies), inv, run, batch);
  }

  /** A run started with no results ends with a result for exactly the words it
      processed that got a translation, each holding that translation and its
      examples; the words it processed without one are added to the problematic set,
      and no other word is. */
  lemma {:induction false} ProcessAllAccounted(run: Run, words: seq<string>, size: nat, replies: string -> Replies)
    requires size > 0 && run.results == map[]
    ensures Accounted(ProcessAll(run, words, size, replies), run, replies)
  {
    var inv := (t: Run) => Accounted(t, run, replies);
    forall t: Run, b: seq<string> | b in Chunking.Chunks(words, size) && inv(t)
      ensures inv(BatchStep(replies)(t, b))
    {
      BatchAccounted(t, run, b, replies);
    }
    Reorder.FoldPreserves(BatchStep(replies), inv, run, Chunking.Chunks(words, size));
  }

  lemma {:induction false} FoldProcessed(run: Run, batch: seq<string>, replies: string -> Replies)
    ensures Reorder.Fold(VisitStep(replies), run, batch).book.processed == run.book.processed + Order.Elems(batch)
    ensures Reorder.Fold(VisitStep(replies), run, batch).saves == run.saves
    decreases |batch|
  {
    if batch != [] {
      var next := VisitStep(replies)(run, batch[0]);
      FoldProcessed(next, batch[1..], replies);
      assert Order.Elems(batch) == {batch[0]} + Order.Elems(batch[1..]) by {
        assert batch == [batch[0]] + batch[1..];
      }
    }
  }

  /** After process_words every word of the list is processed, whatever happened to
      it, and no other word became processed. */
  lemma {:induction false} ProcessAllProcessed(run: Run, words: seq<string>, size: nat, replies: string -> Replies)
    requires size > 0
    ensures ProcessAll(run, words, size, replies).book.processed == run.book.processed + Order.Elems(words)
    decreases |words|
  {
    if words != [] {
      var m := Chunking.Min(size, |words|);
      assert words == words[..m] + words[m..];
      assert Order.Elems(words) == Order.Elems(words[..m]) + Order.Elems(words[m..]);
      FoldProcessed(run, words[..m], replies);
      ProcessAllProcessed(Batch(run, words[..m], replies), words[m..], size, replies);
    }
  }

  /** A word processed before a batch is skipped: the batch leaves its status, its
      translation, its examples and its result alone. */
  lemma {:induction false} FoldSkips(run: Run, batch: seq<string>, replies: string -> Replies, w: string)
    requires w in run.book.processed
    ensures var r := Reorder.Fold(VisitStep(replies), run, batch);
      && w in r.book.processed
      && (w in r.book.problematic <==> w in run.book.problematic)
      && (w in r.book.translations <==> w in run.book.translations)
      && (w in r.book.translations ==> r.book.translations[w] == run.book.translations[w])
      && (w in r.book.examples <==> w in run.book.examples)
      && (w in r.book.examples ==> r.book.examples[w] == run.book.examples[w])
      && (w in r.results <==> w in run.results)
      && (w in r.results ==> r.results[w] == run.results[w])
    decreases |batch|
  {
    if batch != [] {
      FoldSkips(VisitStep(replies)(run, batch[0]), batch[1..], replies, w);
    }
  }

  /** Exactly one snapshot per batch, ceil(n / size) in all, appended to the earlier
      ones; when there was a batch the last one holds the final fields and the size of
      this run's results. */
  lemma {:induction false} ProcessAllSaves(run: Run, words: seq<string>, size: nat, replies: string -> Replies)
    requires size > 0
    ensures var r := ProcessAll(run, words, size, replies);
      && |r.saves| == |run.saves| + Chunking.CeilDiv(|words|, size)
      && r.saves[..|run.saves|] == run.saves
      && (words != [] ==> r.saves[|r.saves| - 1] == Original.Snapshot(r.book, |r.results|))
    decreases |words|
  {
    Chunking.ChunksShape(words, size);
    if words != [] {
      var m := Chunking.Min(size, |words|);
      var b := words[..m];
      var next := Batch(run, b, replies);
      FoldProcessed(run, b, replies);
      ProcessAllSaves(next, words[m..], size, replies);
      Chunking.ChunksShape(words[m..], size);
      var r := ProcessAll(run, words, size, replies);
      assert r == ProcessAll(next, words[m..], size, replies);
      assert r.saves[..|next.saves|] == next.saves;
      assert r.saves[..|run.saves|] == r.saves[..|next.saves|][..|run.saves|];
      if words[m..] == [] {
        assert Chunking.Chunks(words[m..], size) == [];
      }
    }
  }

  // ---- load_word_list ----

  /** A line of the word list holding a word: it does not strip to nothing. */
  predicate Listed(lines: seq<string>, w: string) {
    w != "" && exists i :: 0 <= i < |lines| && Strip(lines[i]) == w
  }

  /** load_word_list: each distinct stripped non-blank line once, in no particular
      order; no comment is skipped and no `|` is split. */
  method LoadWordList(lines: seq<string>) returns (words: seq<string>)
    ensures forall w :: w in words <==> Listed(lines, w)
    ensures forall i, j :: 0 <= i < j < |words| ==> words[i] != words[j]
  {
    var seen: set<string> := {};
    for k := 0 to |lines|
      invariant forall w :: w in seen <==> Listed(lines[..k], w)
    {
      var line := Strip(lines[k]);
      if line != "" {
        seen := seen + {line};
      }
      forall w ensures Listed(lines[..k + 1], w) <==> Listed(lines[..k], w) || (w == line && line != "") {
        ListedStep(lines, k, w);
      }
    }
    assert lines[..|lines|] == lines;
    words := Listing(seen);
  }

  /** One more line lists its stripped text, when that is not blank. */
  lemma {:induction false} ListedStep(lines: seq<string>, k: nat, w: string)
    requires k < |lines|
    ensures Listed(lines[..k + 1], w) <==> Listed(lines[..k], w) || (w == Strip(lines[k]) && w != "")
  {
    var a, b := lines[..k], lines[..k + 1];
    assert forall i :: 0 <= i < k ==> a[i] == b[i];
    assert b[k] == lines[k];
    if Listed(b, w) {
      var i :| 0 <= i < k + 1 && Strip(b[i]) == w;
      if i < k { assert Strip(a[i]) == w; }
    }
  }

  /** list(s): the members of a set once each, in whatever order it iterates them. */
  method Listing(s: set<string>) returns (words: seq<string>)
    ensures forall w :: w in words <==> w in s
    ensures forall i, j :: 0 <= i < j < |words| ==> words[i] != words[j]
  {
    words := [];
    var rest := s;
    while rest != {}
      invariant rest <= s
      invariant forall w :: w in words <==> w in s - rest
      invariant forall i, j :: 0 <= i < j < |words| ==> words[i] != words[j]
      decreases |rest|
    {
      var w :| w in rest;
      assert w !in words;
      ghost var before := words;
      words := words + [w];
      rest := rest - {w};
      forall v ensures v in words <==> v in s - rest {
        assert v in words <==> v in before || v == w;
      }
      forall i, j | 0 <= i < j < |words| ensures words[i] != words[j] {
        if j < |before| { assert words[i] == before[i] && words[j] == before[j]; }
        else { assert words[i] == before[i] && words[i] in before; }
      }
    }
  }

  // ---- Output ----

  /** create_yomichan_entry: the first builder's entry without flags. */
  function CreateEntry(spanish: string, korean: string, examples: seq<string>): Json {
    Original.CreateEntry(spanish, korean, "", examples)
  }

  /** The six fields [term, "", "", "unknown", 0, [structured content]]; the content
      starts with the translation, shows no flags, has the examples blocks exactly when
      there are examples, and lists at most the first three, in order. */
  lemma {:induction false} CreateEntrySpec(spanish: string, korean: string, examples: seq<string>)
    ensures var f := TermFields(CreateEntry(spanish, korean, examples));
      |f| == 6 && f[0] == JStr(spanish) && f[1] == JStr("") && f[2] == JStr("")
      && f[3] == JStr("unknown") && f[4] == JInt(0)
    ensures var c := ContentBlocks(CreateEntry(spanish, korean, examples));
      && ReadTranslation(c) == Some(korean)
      && Tags(c) == ["div"] + (if examples != [] then ["br", "div", "ul"] else [])
      && ReadFlags(c) == ""
      && ReadExamples(c) == Take(examples, 3)
  {
    Original.CreateEntrySpec(spanish, korean, "", examples);
    EntryContentReads(korean, "", examples);
  }

  /** The header of the CSV export. */
  function CsvHeader(): seq<string> {
    ["spanish", "korean", "examples"]
  }

  /** A results row: the word, its translation and its examples joined by "; ". */
  function CsvRow(spanish: string, e: Entry): seq<string> {
    [spanish, e.translation, Join("; ", e.examples)]
  }

  /** The examples cell read back: split at ';' and the space after each ';' dropped
      gives the examples again, when none holds a ';' and every one after the first
      starts with the space that the join put there. */
  lemma {:induction false} ExamplesCellSplit(examples: seq<string>)
    requires |examples| >= 1
    requires forall i :: 0 <= i < |examples| ==> ';' !in examples[i]
    ensures Split(Join("; ", examples), ';') == [examples[0]] + Spaced(examples[1..])
  {
    JoinSpaced(examples);
    var parts := [examples[0]] + Spaced(examples[1..]);
    forall i | 0 <= i < |parts| ensures ';' !in parts[i] {
      if i > 0 {
        SpacedAt(examples[1..], i - 1);
      }
    }
    SplitJoin(parts, ';');
  }

  /** Each string with a space put in front. */
  function Spaced(xs: seq<string>): (r: seq<string>)
    ensures |r| == |xs|
    decreases |xs|
  {
    if xs == [] then [] else [" " + xs[0]] + Spaced(xs[1..])
  }

  lemma {:induction false} SpacedAt(xs: seq<string>, i: nat)
    requires i < |xs|
    ensures Spaced(xs)[i] == " " + xs[i]
    decreases i
  {
    if i > 0 {
      SpacedAt(xs[1..], i - 1);
    }
  }

  /** Joining with "; " is joining with ";" the strings after the first spaced. */
  lemma {:induction false} JoinSpaced(xs: seq<string>)
    requires |xs| >= 1
    ensures Join("; ", xs) == Join(";", [xs[0]] + Spaced(xs[1..]))
    decreases |xs|
  {
    if |xs| >= 2 {
      JoinSpaced(xs[1..]);
      var ys := [xs[0]] + Spaced(xs[1..]);
      var zs := [xs[1]] + Spaced(xs[2..]);
      assert xs[1..][0] == xs[1] && xs[1..][1..] == xs[2..];
      assert Spaced(xs[1..]) == [" " + xs[1]] + Spaced(xs[2..]);
      assert ys[1..] == Spaced(xs[1..]);
      assert Join(";", ys) == xs[0] + ";" + Join(";", Spaced(xs[1..]));
      JoinHeadSpace(zs);
      assert [" " + zs[0]] + zs[1..] == Spaced(xs[1..]);
      assert Join(";", Spaced(xs[1..])) == " " + Join(";", zs);
      assert xs[0] + "; " + Join(";", zs) == xs[0] + ";" + (" " + Join(";", zs));
    }
  }

  /** A space in front of the first piece is a space in front of the joined text. */
  lemma {:induction false} JoinHeadSpace(zs: seq<string>)
    requires |zs| >= 1
    ensures Join(";", [" " + zs[0]] + zs[1..]) == " " + Join(";", zs)
  {
    var ws := [" " + zs[0]] + zs[1..];
    assert ws[0] == " " + zs[0] && ws[1..] == zs[1..];
    if |zs| >= 2 {
      assert (" " + zs[0]) + ";" + Join(";", zs[1..]) == " " + (zs[0] + ";" + Join(";", zs[1..]));
    }
  }

  // ---- The builder ----

  class Builder {
    var translations: map<string, string>
    var examples: map<string, seq<string>>
    var processedWords: set<string>
    var problematicWords: set<string>
    /** The progress.json snapshots written so far, oldest first. */
    var saves: seq<Original.Snapshot>

    function Fields(): Original.Book
      reads this
    {
      Original.Book(translations, examples, processedWords, problematicWords)
    }

    constructor ()
      ensures Fields() == Original.EmptyBook() && saves == []
    {
      translations, examples := map[], map[];
      processedWords, problematicWords := {}, {};
      saves := [];
    }

    /** process_word: Glosbe, then Google when Glosbe gave nothing, then the similar
        phrases, then the validation. Also says whether Google was asked. */
    method ProcessWord(word: string, r: Replies) returns (translation: Option<string>, examples': seq<string>, askedGoogle: bool)
      modifies this
      ensures translation == Translation(r) && examples' == Examples(word, r.phrases)
      ensures askedGoogle == AsksGoogle(r)
      ensures problematicWords == old(problematicWords) + (if translation.None? then {word} else {})
      ensures translations == old(translations) && examples == old(examples)
      ensures processedWords == old(processedWords) && saves == old(saves)
    {
      var t := GetTranslation(r.glosbe);
      askedGoogle := false;
      if t.None? || t.value == "" {
        askedGoogle := true;
        t := GetGoogleTranslation(r.google);
      }
      examples' := GetSimilarPhrases(word, r.phrases);
      if t.None? || |Strip(t.value)| < 2 {
        problematicWords := problematicWords + {word};
        return None, examples', askedGoogle;
      }
      translation := Some(Strip(t.value));
    }

    method SaveProgress(results: map<string, Entry>)
      modifies this
      ensures saves == old(saves) + [Original.Snapshot(Fields(), |results|)]
      ensures Fields() == old(Fields())
    {
      saves := saves + [Original.Snapshot(Fields(), |results|)];
    }

    method LoadProgress(file: Option<Original.Stored>)
      modifies this
      ensures Fields() == Original.Restore(old(Fields()), file) && saves == old(saves)
    {
      if file.Some? {
        var d := file.value;
        translations := OrElse(d.translations, map[]);
        examples := OrElse(d.examples, map[]);
        processedWords := Order.Elems(OrElse(d.processedWords, []));
        problematicWords := Order.Elems(OrElse(d.problematicWords, []));
      }
    }

    /** process_words over `words` in batches of `batchSize`. */
    method ProcessWords(words: seq<string>, batchSize: nat, replies: string -> Replies) returns (results: map<string, Entry>)
      requires batchSize > 0
      modifies this
      ensures Run(Fields(), results, saves) == ProcessAll(Run(old(Fields()), map[], old(saves)), words, batchSize, replies)
    {
      ghost var goal := ProcessAll(Run(Fields(), map[], saves), words, batchSize, replies);
      RemainingEnds(Run(Fields(), map[], saves), words, batchSize, replies);
      results := map[];
      var i := 0;
      while i < |words|
        invariant 0 <= i <= |words|
        invariant Remaining(Run(Fields(), results, saves), words, i, batchSize, replies) == goal
      {
        results, i := ProcessNext(words, i, batchSize, replies, results);
      }
      RemainingEnds(Run(Fields(), results, saves), words, batchSize, replies);
    }

    /** The batch words[i:i + batch_size], cut at the end of the list. */
    method ProcessNext(words: seq<string>, i: nat, batchSize: nat, replies: string -> Replies, results0: map<string, Entry>)
      returns (results: map<string, Entry>, next: nat)
      requires batchSize > 0 && i < |words|
      modifies this
      ensures i < next <= |words|
      ensures Remaining(Run(Fields(), results, saves), words, next, batchSize, replies)
        == Remaining(Run(old(Fields()), results0, old(saves)), words, i, batchSize, replies)
    {
      var m := Chunking.Min(batchSize, |words| - i);
      var batch := words[i..i + m];
      ghost var cur := Run(Fields(), results0, saves);
      results := ProcessBatch(batch, replies, results0);
      assert Run(Fields(), results, saves) == Batch(cur, batch, replies);
      RemainingNext(cur, Run(Fields(), results, saves), words, i, batchSize, replies);
      next := i + m;
    }

    /** One batch: its words one by one, then the progress is saved. */
    method ProcessBatch(batch: seq<string>, replies: string -> Replies, results0: map<string, Entry>)
      returns (results: map<string, Entry>)
      modifies this
      ensures Run(Fields(), results, saves) == Batch(Run(old(Fields()), results0, old(saves)), batch, replies)
    {
      ghost var start := Run(Fields(), results0, saves);
      results := results0;
      assert batch[0..] == batch;
      for k := 0 to |batch|
        invariant Reorder.Fold(VisitStep(replies), Run(Fields(), results, saves), batch[k..])
          == Reorder.Fold(VisitStep(replies), start, batch)
      {
        Reorder.FoldUnroll(VisitStep(replies), Run(Fields(), results, saves), batch, k);
        results := VisitWord(batch[k], replies(batch[k]), results);
      }
      assert batch[|batch|..] == [];
      SaveProgress(results);
    }

    /** The body of the inner loop for one word. */
    method VisitWord(word: string, r: Replies, results0: map<string, Entry>) returns (results: map<string, Entry>)
      modifies this
      ensures Run(Fields(), results, saves) == Visit(Run(old(Fields()), results0, old(saves)), word, r)
    {
      results := results0;
      if word in processedWords {
        return;
      }
      var translation, exs, _ := ProcessWord(word, r);
      if translation.Some? {
        results := results[word := Entry(translation.value, exs)];
        translations := translations[word := translation.value];
        examples := examples[word := exs];
      }
      processedWords := processedWords + {word};
    }

    /** save_problematic_words on this class's problematic set: the report itself is
        ProblemReport.Report; each script defines the method on its own class. */
    method SaveProblematicWords() returns (writes: seq<string>)
      ensures |writes| == 3 + |problematicWords| && writes[..3] == ProblemReport.Header()
      ensures exists ws :: (Order.StrictlySorted(ws) && Order.Elems(ws) == problematicWords
        && writes == ProblemReport.Header() + ProblemReport.Rows(ws))
    {
      writes := ProblemReport.Report(problematicWords);
    }

    /** save_yomichan: one entry per result, in the dictionary's order `keys`. */
    method SaveYomichan(results: map<string, Entry>, keys: seq<string>) returns (entries: seq<Json>)
      requires Order.ListsOnce(keys, results.Keys)
      ensures |entries| == |results|
      ensures |entries| == |keys|
      ensures forall k :: 0 <= k < |keys| ==>
        entries[k] == CreateEntry(keys[k], results[keys[k]].translation, results[keys[k]].examples)
    {
      entries := [];
      for k := 0 to |keys|
        invariant |entries| == k
        invariant forall j :: 0 <= j < k ==>
          entries[j] == CreateEntry(keys[j], results[keys[j]].translation, results[keys[j]].examples)
      {
        var e := results[keys[k]];
        entries := entries + [CreateEntry(keys[k], e.translation, e.examples)];
      }
      Order.DistinctCount(keys);
      assert |results| == |results.Keys|;
    }

    /** save_csv: the header, then one row per result in the dictionary's order. */
    method SaveCsv(results: map<string, Entry>, keys: seq<string>) returns (rows: seq<seq<string>>)
      requires Order.ListsOnce(keys, results.Keys)
      ensures |rows| == |results| + 1
      ensures |rows| == |keys| + 1 && rows[0] == CsvHeader()
      ensures forall k :: 0 <= k < |keys| ==> rows[k + 1] == CsvRow(keys[k], results[keys[k]])
    {
      rows := [CsvHeader()];
      for k := 0 to |keys|
        invariant |rows| == k + 1 && rows[0] == CsvHeader()
        invariant forall j :: 0 <= j < k ==> rows[j + 1] == CsvRow(keys[j], results[keys[j]])
      {
        var e := results[keys[k]];
        rows := rows + [[keys[k], e.translation, Join("; ", e.examples)]];
      }
      Order.DistinctCount(keys);
      assert |results| == |results.Keys|;
    }
  }
}
