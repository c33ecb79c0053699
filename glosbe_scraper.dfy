/** The Glosbe scraper (Scraping-Tools/Glosbe/main.py): command-line flags set the
    script's globals; then every word of the word list from the start point on is
    looked up on glosbe.com and, unless a field fails in comprehensive mode, saved as
    one row of output.csv. A fetched page is given as the fields the scraper's
    selectors find on it, each found, absent or failed (the selector raised). */
module GlosbeScraper {
  import opened Text

  // ---- The globals ----

  datatype Config = Config(
    verbose: bool, comprehensive: bool, startpoint: int,
    targetLang: Option<string>, nativeLang: Option<string>,
    outpath: Option<string>, inpath: Option<string>, delay: Option<int>,
    sentencesEnabled: bool, definitionsEnabled: bool, audioEnabled: bool)

  /** The values the globals start with. */
  function InitialConfig(): Config {
    Config(false, false, 0, None, None, None, None, None, true, true, true)
  }

  /** How a step of the script ends: it goes on, it calls quit(), or an exception
      nobody catches ends it. */
  datatype Exit = Proceed | Quit | Crash

  // ---- checkflags ----

  /** The target and native languages are both set and equal. */
  predicate SameLanguages(c: Config) {
    c.nativeLang.Some? && c.targetLang == c.nativeLang
  }

  /** The options getopt accepts ("i:o:hvdcs:t:n:l:" and the long ns, na, nd); any
      other option makes getopt raise, which is not part of this model. */
  datatype OptName = Help | Verbose | Dev | Complete | Start | Target | Native
                   | Output | Input | Delay | NoSentences | NoDefinitions | NoAudio

  datatype Opt = Opt(name: OptName, value: string)

  /** One (option, argument) pair of getopt's result. `parseInt` is int() on a
      string, None where int() raises ValueError, which the script's `except
      TypeError` does not catch. After every option but -h, equal target and native
      languages quit. */
  function ApplyOption(langs: seq<string>, parseInt: string -> Option<int>, c: Config, opt: Opt): (Config, Exit) {
    var value := opt.value;
    match opt.name
    case Help => (c, Quit)
    case Start =>
      if parseInt(value).None? then (c, Crash) else Checked(c.(startpoint := parseInt(value).value - 1))
    case Target =>
      if value !in langs then (c.(targetLang := Some(value)), Quit) else Checked(c.(targetLang := Some(value)))
    case Native =>
      if value !in langs then (c.(nativeLang := Some(value)), Quit) else Checked(c.(nativeLang := Some(value)))
    case Delay =>
      if SameLanguages(c) then (c, Quit)
      else if parseInt(value).None? then (c, Crash)
      else (c.(delay := Some(parseInt(value).value)), Proceed)
    case _ => Checked(Simple(c, opt))
  }

  /** The same-language check that follows every option. */
  function Checked(c: Config): (Config, Exit) {
    if SameLanguages(c) then (c, Quit) else (c, Proceed)
  }

  /** The options that only set a global; -d sets nothing. */
  function Simple(c: Config, opt: Opt): (r: Config)
    ensures r.targetLang == c.targetLang && r.nativeLang == c.nativeLang
  {
    match opt.name
    case Verbose => c.(verbose := true)
    case Complete => c.(comprehensive := true)
    case Output => c.(outpath := Some(opt.value))
    case Input => c.(inpath := Some(opt.value))
    case NoSentences => c.(sentencesEnabled := false)
    case NoDefinitions => c.(definitionsEnabled := false)
    case NoAudio => c.(audioEnabled := false)
    case _ => c
  }

  /** The option loop: the options in order, stopping at the first that does not let
      the script go on. */
  function Flags(langs: seq<string>, parseInt: string -> Option<int>, c: Config, opts: seq<Opt>): (Config, Exit)
    decreases |opts|
  {
    if opts == [] then (c, Proceed)
    else
      var step := ApplyOption(langs, parseInt, c, opts[0]);
      if step.1 != Proceed then step else Flags(langs, parseInt, step.0, opts[1..])
  }

  /** The language settings checkflags lets through: codes from the supported list
      and not both the same. */
  predicate LanguagesOk(langs: seq<string>, c: Config) {
    && (c.targetLang.Some? ==> c.targetLang.value in langs)
    && (c.nativeLang.Some? ==> c.nativeLang.value in langs)
    && !SameLanguages(c)
  }

  /** An option the script goes on after leaves the languages supported and
      different; one that makes them equal, or names an unsupported code, quits. */
  lemma {:induction false} ApplyKeepsLanguages(langs: seq<string>, parseInt: string -> Option<int>, c: Config, opt: Opt)
    requires LanguagesOk(langs, c)
    ensures var r := ApplyOption(langs, parseInt, c, opt);
      && (r.1 == Proceed ==> LanguagesOk(langs, r.0))
      && (SameLanguages(r.0) ==> r.1 == Quit)
      && ((opt.name == Target || opt.name == Native) && opt.value !in langs ==> r.1 == Quit)
  {
    var r := ApplyOption(langs, parseInt, c, opt);
    match opt.name {
      case Help =>
      case Start =>
        if parseInt(opt.value).Some? {
          var c' := c.(startpoint := parseInt(opt.value).value - 1);
          assert c'.targetLang == c.targetLang && c'.nativeLang == c.nativeLang;
        }
      case Target =>
        var c' := c.(targetLang := Some(opt.value));
        assert c'.nativeLang == c.nativeLang;
      case Native =>
        var c' := c.(nativeLang := Some(opt.value));
        assert c'.targetLang == c.targetLang;
      case Delay =>
        if parseInt(opt.value).Some? {
          var c' := c.(delay := Some(parseInt(opt.value).value));
          assert c'.targetLang == c.targetLang && c'.nativeLang == c.nativeLang;
        }
      case _ =>
        assert r == Checked(Simple(c, opt));
    }
  }

  /** After all the options, when the script goes on, the languages are supported and
      different. */
  lemma {:induction false} FlagsKeepLanguages(langs: seq<string>, parseInt: string -> Option<int>, c: Config, opts: seq<Opt>)
    requires LanguagesOk(langs, c)
    ensures Flags(langs, parseInt, c, opts).1 == Proceed ==> LanguagesOk(langs, Flags(langs, parseInt, c, opts).0)
    decreases |opts|
  {
    if opts != [] {
      ApplyKeepsLanguages(langs, parseInt, c, opts[0]);
      var step := ApplyOption(langs, parseInt, c, opts[0]);
      if step.1 == Proceed {
        FlagsKeepLanguages(langs, parseInt, step.0, opts[1..]);
      }
    }
  }

  /** `-s N` makes the start point N - 1, the list index of the N-th word. */
  lemma {:induction false} StartOption(langs: seq<string>, parseInt: string -> Option<int>, c: Config, value: string)
    requires !SameLanguages(c) && parseInt(value).Some?
    ensures ApplyOption(langs, parseInt, c, Opt(Start, value)) == (c.(startpoint := parseInt(value).value - 1), Proceed)
  {
  }

  /** `-h` ends the script whatever follows it. */
  lemma {:induction false} HelpQuits(langs: seq<string>, parseInt: string -> Option<int>, c: Config, value: string, rest: seq<Opt>)
    ensures Flags(langs, parseInt, c, [Opt(Help, value)] + rest) == (c, Quit)
  {
  }

  // ---- Building the output ----

  /** The CSV header: word, then each enabled column. */
  function Header(c: Config): seq<string> {
    ["word"]
    + (if c.definitionsEnabled then ["translation"] else [])
    + (if c.audioEnabled then ["audio_url"] else [])
    + (if c.sentencesEnabled then ["sentence_native", "sentence_target"] else [])
  }

  /** A data row, built the way the header is. sentences.0 is the example sentence
      in the word list's language, sentences.1 its translation. */
  function Row(c: Config, word: string, translation: string, audioUrl: string, sentences: (string, string)): seq<string> {
    [word]
    + (if c.definitionsEnabled then [translation] else [])
    + (if c.audioEnabled then [audioUrl] else [])
    + (if c.sentencesEnabled then [sentences.0, sentences.1] else [])
  }

  /** What the cell under a header name holds. */
  function Cell(name: string, word: string, translation: string, audioUrl: string, sentences: (string, string)): string {
    if name == "word" then word
    else if name == "translation" then translation
    else if name == "audio_url" then audioUrl
    else if name == "sentence_native" then sentences.0
    else sentences.1
  }

  /** Every row has the header's length and each cell sits under its own column name;
      the column named sentence_native receives sentences[0], the sentence in the word
      list's language. */
  lemma {:induction false} RowUnderHeader(c: Config, word: string, translation: string, audioUrl: string, sentences: (string, string))
    ensures var h := Header(c); var r := Row(c, word, translation, audioUrl, sentences);
      && |r| == |h|
      && forall i :: 0 <= i < |h| ==> r[i] == Cell(h[i], word, translation, audioUrl, sentences)
  {
    var d := if c.definitionsEnabled then 1 else 0;
    var a := if c.audioEnabled then 1 else 0;
    var h := Header(c);
    var r := Row(c, word, translation, audioUrl, sentences);
    forall i | 0 <= i < |h| ensures r[i] == Cell(h[i], word, translation, audioUrl, sentences) {
      if i == 0 {
      } else if i < 1 + d {
        assert h[i] == "translation" && r[i] == translation;
      } else if i < 1 + d + a {
        assert h[i] == "audio_url" && r[i] == audioUrl;
      } else if i == 1 + d + a {
        assert h[i] == "sentence_native" && r[i] == sentences.0;
      } else {
        assert h[i] == "sentence_target" && r[i] == sentences.1;
      }
    }
  }

  /** s += piece + ", " for each piece. */
  function Pieces(texts: seq<string>): string
    decreases |texts|
  {
    if texts == [] then "" else texts[0] + ", " + Pieces(texts[1..])
  }

  lemma {:induction false} PiecesSnoc(texts: seq<string>, t: string)
    ensures Pieces(texts + [t]) == Pieces(texts) + t + ", "
    decreases |texts|
  {
    if texts == [] {
      assert [t][1..] == [];
    } else {
      assert (texts + [t])[1..] == texts[1..] + [t];
      PiecesSnoc(texts[1..], t);
    }
  }

  /** The characters rstrip(", ") removes. */
  function CommaSpace(): set<char> {
    {',', ' '}
  }

  /** A piece that rstrip leaves alone: non-empty, not ending in ',' or ' '. */
  predicate Clean(t: string) {
    t != "" && t[|t| - 1] !in CommaSpace()
  }

  lemma {:induction false} PiecesJoined(texts: seq<string>)
    requires texts != []
    ensures Pieces(texts) == Join(", ", texts) + ", "
    decreases |texts|
  {
    if |texts| == 1 {
      assert texts[1..] == [];
    } else {
      PiecesJoined(texts[1..]);
    }
  }

  /** The accumulate-then-rstrip idiom is join: for pieces that do not themselves end
      in ',' or ' ', rstrip(", ") of the accumulated text is ", ".join(pieces). */
  lemma {:induction false} RStripJoin(texts: seq<string>)
    requires forall i :: 0 <= i < |texts| ==> Clean(texts[i])
    ensures RStripChars(Pieces(texts), CommaSpace()) == Join(", ", texts)
  {
    if texts != [] {
      PiecesJoined(texts);
      var j := Join(", ", texts);
      JoinClean(texts);
      var s := j + ", ";
      assert s[..|s| - 1] == j + ",";
      assert (j + ",")[..|j|] == j;
    }
  }

  lemma {:induction false} JoinClean(texts: seq<string>)
    requires texts != [] && forall i :: 0 <= i < |texts| ==> Clean(texts[i])
    ensures Clean(Join(", ", texts))
    decreases |texts|
  {
    if |texts| > 1 {
      JoinClean(texts[1..]);
      var rest := Join(", ", texts[1..]);
      assert Join(", ", texts) == texts[0] + ", " + rest;
    }
  }

  // ---- One word ----

  /** The audio button: found with its data-file value and whether saving the file
      worked, not found, or the lookup raised. */
  datatype Audio = Button(dataFile: string, saved: bool) | NoButton | AudioError

  /** The translation items' h3 phrases (None for an item without one), or the items
      handled before the loop raised. */
  datatype Phrases = Phrases(items: seq<Option<string>>) | PhrasesError(before: seq<Option<string>>)

  /** The <p> texts of the first translation's example (none when there is no first
      translation or no example), or the lookup raised. */
  datatype Examples = Examples(ps: seq<string>) | ExamplesError

  /** A fetched page: the attribute spans (each with its item texts), or None when
      that lookup raised; the audio button; the translations; the example. */
  datatype Page = Page(attributes: Option<seq<seq<string>>>, audio: Audio, phrases: Phrases, examples: Examples)

  /** requests.get either returns a page or raises; requests's ConnectionError is not
      the built-in ConnectionError the loop's handler names, so it ends the run. */
  datatype Fetch = Reached(page: Page) | Unreachable

  /** A word is saved as a row, skipped, or its exception ends the run. */
  datatype Visit = Save(row: seq<string>) | Skip | Down

  /** The attribute texts, each followed by ", ", span by span. */
  function AttributeText(spans: seq<seq<string>>): string
    decreases |spans|
  {
    if spans == [] then "" else AttributeText(spans[..|spans| - 1]) + Pieces(spans[|spans| - 1])
  }

  /** The stripped phrases of the items that have one. */
  function PhraseTexts(items: seq<Option<string>>): (r: seq<string>)
    ensures |r| <= |items|
    decreases |items|
  {
    if items == [] then []
    else
      var last := items[|items| - 1];
      PhraseTexts(items[..|items| - 1]) + (if last.Some? then [Strip(last.value)] else [])
  }

  /** The audio_url cell and whether the audio part failed. The URL is set before the
      file is saved, so a failed save leaves it in place. */
  function AudioPart(a: Audio): (string, bool) {
    match a
    case Button(f, saved) => if f == "" then ("", true) else ("https://glosbe.com/fb_aud/" + f, !saved)
    case NoButton => ("", true)
    case AudioError => ("", true)
  }

  /** The translation cell and whether the translation part failed; on failure the text
      accumulated so far stays, not rstripped. */
  function TranslationPart(p: Phrases): (string, bool) {
    match p
    case Phrases(items) => (RStripChars(Pieces(PhraseTexts(items)), CommaSpace()), false)
    case PhrasesError(before) => (Pieces(PhraseTexts(before)), true)
  }

  function SentencePart(e: Examples): ((string, string), bool) {
    match e
    case Examples(ps) => (if |ps| >= 2 then (Strip(ps[0]), Strip(ps[1])) else ("", ""), false)
    case ExamplesError => (("", ""), true)
  }

  /** The body of the word loop for one word. A failed part skips the word in
      comprehensive mode and is otherwise written with what it has. */
  function VisitWord(c: Config, word: string, f: Fetch): Visit {
    match f
    case Unreachable => Down
    case Reached(page) =>
      if page.attributes.None? && c.comprehensive then Skip
      else
        var audio := AudioPart(page.audio);
        if c.audioEnabled && audio.1 && c.comprehensive then Skip
        else
          var translation := TranslationPart(page.phrases);
          if translation.1 && c.comprehensive then Skip
          else
            var sentences := SentencePart(page.examples);
            if sentences.1 && c.comprehensive then Skip
            else Save(Row(c, word, translation.0, audio.0, sentences.0))
  }

  /** Only comprehensive mode skips; a saved row starts with the word. */
  lemma {:induction false} VisitSpec(c: Config, word: string, f: Fetch)
    ensures VisitWord(c, word, f) == Skip ==> c.comprehensive
    ensures VisitWord(c, word, f) == Down <==> f.Unreachable?
    ensures VisitWord(c, word, f).Save? ==>
      |VisitWord(c, word, f).row| == |Header(c)| && VisitWord(c, word, f).row[0] == word
    ensures !c.comprehensive && f.Reached? ==> VisitWord(c, word, f).Save?
  {
    match f
    case Unreachable =>
    case Reached(page) =>
      var audio := AudioPart(page.audio);
      var translation := TranslationPart(page.phrases);
      var sentences := SentencePart(page.examples);
      RowUnderHeader(c, word, translation.0, audio.0, sentences.0);
  }

  /** A translation cell built from a page whose lookups worked never ends with ','
      or ' ', and is the ", "-join of the phrases when they are clean. */
  lemma {:induction false} TranslationCell(items: seq<Option<string>>)
    ensures var t := TranslationPart(Phrases(items)).0;
      t == "" || t[|t| - 1] !in CommaSpace()
    ensures (forall i :: 0 <= i < |PhraseTexts(items)| ==> Clean(PhraseTexts(items)[i])) ==>
      TranslationPart(Phrases(items)).0 == Join(", ", PhraseTexts(items))
  {
    if forall i :: 0 <= i < |PhraseTexts(items)| ==> Clean(PhraseTexts(items)[i]) {
      RStripJoin(PhraseTexts(items));
    }
  }

  // ---- The word loop ----

  /** Whether the loop is still going, or which exception ended it: an unreachable
      page, or `sleep(delay / 1000)` raising after a saved row (ValueError for a
      negative delay, TypeError for none). The handler names only the built-in
      ConnectionError, so neither is caught. */
  datatype Stop = Going | Offline | SleepFailed

  /** The loop's counters, the output file's rows and how the loop stands. */
  datatype Tally = Tally(csv: seq<seq<string>>, count: int, saved: nat, skipped: nat, stop: Stop)

  /** time.sleep refuses the pause after a saved row. */
  predicate SleepRaises(c: Config) {
    c.delay.None? || c.delay.value < 0
  }

  /** One pass of the loop: count += 1, then the word's outcome v. A row goes to
      output.csv, after the header when the file is still empty, and is counted
      before the pause that follows it. */
  function Step(c: Config, t: Tally, v: Visit): Tally {
    var t1 := t.(count := t.count + 1);
    match v
    case Down => t1.(stop := Offline)
    case Skip => t1.(skipped := t1.skipped + 1)
    case Save(row) =>
      t1.(csv := t1.csv + (if t1.csv == [] then [Header(c)] else []) + [row], saved := t1.saved + 1,
          stop := if SleepRaises(c) then SleepFailed else Going)
  }

  /** A pass ends the run exactly on an unreachable page, or on a saved row whose
      pause raises; a skipped word never reaches the pause. */
  lemma {:induction false} StepStops(c: Config, t: Tally, v: Visit)
    requires t.stop == Going
    ensures Step(c, t, v).stop == Offline <==> v.Down?
    ensures Step(c, t, v).stop == SleepFailed <==> v.Save? && SleepRaises(c)
    ensures Step(c, t, v).stop == Going <==> v.Skip? || (v.Save? && !SleepRaises(c))
  {
  }

  /** The loop over `words`, which stops once an exception ends the run. */
  function Run(c: Config, fetch: string -> Fetch, t: Tally, words: seq<string>): Tally
    decreases |words|
  {
    if words == [] then t
    else
      var r := Run(c, fetch, t, words[..|words| - 1]);
      if r.stop != Going then r else Step(c, r, VisitWord(c, words[|words| - 1], fetch(words[|words| - 1])))
  }

  /** One more word on a run that is still going is one more Step. */
  lemma {:induction false} RunNext(c: Config, fetch: string -> Fetch, t: Tally, words: seq<string>, k: nat)
    requires k < |words| && Run(c, fetch, t, words[..k]).stop == Going
    ensures Run(c, fetch, t, words[..k + 1]) == Step(c, Run(c, fetch, t, words[..k]), VisitWord(c, words[k], fetch(words[k])))
  {
    assert words[..k + 1][..k] == words[..k];
  }

  /** wordlist[startpoint:], with Python's meaning of a negative start. */
  function From(xs: seq<string>, start: int): seq<string> {
    if start >= 0 then (if start <= |xs| then xs[start..] else [])
    else if -start <= |xs| then xs[|xs| + start..]
    else xs
  }

  /** Each visited word adds one tick to count and exactly one saved row, one skip or,
      on an unreachable page, the end of the run; skips happen in comprehensive mode
      only, so outside it every reached word is saved. A pause that raises ends the
      run right after the first saved row, and only then. */
  lemma {:induction false} RunCounts(c: Config, fetch: string -> Fetch, t: Tally, words: seq<string>)
    requires t.stop == Going
    ensures var r := Run(c, fetch, t, words);
      && r.saved >= t.saved && r.skipped >= t.skipped
      && r.count - t.count <= |words|
      && (r.stop == Going ==> r.count == t.count + |words|)
      && r.saved + r.skipped + (if r.stop == Offline then 1 else 0) == t.saved + t.skipped + (r.count - t.count)
      && (!c.comprehensive ==> r.skipped == t.skipped)
      && (r.stop == SleepFailed <==> SleepRaises(c) && r.saved > t.saved)
      && (SleepRaises(c) ==> r.saved <= t.saved + 1)
    decreases |words|
  {
    if words != [] {
      var init := words[..|words| - 1];
      var w := words[|words| - 1];
      RunCounts(c, fetch, t, init);
      VisitSpec(c, w, fetch(w));
      var p := Run(c, fetch, t, init);
      if p.stop == Going {
        StepStops(c, p, VisitWord(c, w, fetch(w)));
      }
    }
  }

  /** Once the run is ended, later words change nothing. */
  lemma {:induction false} RunStaysDown(c: Config, fetch: string -> Fetch, t: Tally, words: seq<string>, k: nat)
    requires k <= |words| && Run(c, fetch, t, words[..k]).stop != Going
    ensures Run(c, fetch, t, words) == Run(c, fetch, t, words[..k])
    decreases |words| - k
  {
    if k < |words| {
      assert words[..k + 1][..k] == words[..k];
      RunStaysDown(c, fetch, t, words, k + 1);
    } else {
      assert words[..k] == words;
    }
  }

  /** output.csv grew from t's to r's: what it had is kept; the header is written once,
      first, and only into an empty file that receives a row; every new row has the
      header's length. */
  predicate CsvGrown(c: Config, t: Tally, r: Tally) {
    var headed := t.csv == [] && r.saved > t.saved;
    && r.saved >= t.saved
    && |r.csv| == |t.csv| + (r.saved - t.saved) + (if headed then 1 else 0)
    && r.csv[..|t.csv|] == t.csv
    && (headed ==> r.csv[0] == Header(c))
    && forall i :: |t.csv| + (if headed then 1 else 0) <= i < |r.csv| ==> |r.csv[i]| == |Header(c)|
  }

  /** Saving one more row keeps CsvGrown. */
  lemma {:induction false} CsvGrownSave(c: Config, t: Tally, p: Tally, r: Tally, row: seq<string>)
    requires CsvGrown(c, t, p) && |row| == |Header(c)|
    requires p.csv == [] ==> t.csv == [] && p.saved == t.saved
    requires r.csv == p.csv + (if p.csv == [] then [Header(c)] else []) + [row] && r.saved == p.saved + 1
    ensures CsvGrown(c, t, r)
  {
    assert r.csv[..|p.csv|] == p.csv;
    assert r.csv[..|t.csv|] == p.csv[..|t.csv|];
  }

  /** The rows the loop sends to output.csv obey CsvGrown. */
  lemma {:induction false} RunCsv(c: Config, fetch: string -> Fetch, t: Tally, words: seq<string>)
    requires t.stop == Going
    ensures CsvGrown(c, t, Run(c, fetch, t, words))
    decreases |words|
  {
    if words == [] {
      assert t.csv[..|t.csv|] == t.csv;
    } else {
      var init := words[..|words| - 1];
      var w := words[|words| - 1];
      RunCsv(c, fetch, t, init);
      RunCounts(c, fetch, t, init);
      VisitSpec(c, w, fetch(w));
      var p := Run(c, fetch, t, init);
      if p.stop == Going {
        match VisitWord(c, w, fetch(w)) {
          case Save(row) =>
            CsvGrownSave(c, t, p, Run(c, fetch, t, words), row);
          case Skip =>
          case Down =>
        }
      }
    }
  }

  /** Started at a start point inside the list, a run that is not ended by an
      exception counts up to len(wordlist). */
  lemma {:induction false} CountReachesLength(c: Config, fetch: string -> Fetch, csv: seq<seq<string>>, wordlist: seq<string>, start: int)
    requires 0 <= start <= |wordlist|
    ensures var r := Run(c, fetch, Tally(csv, start, 0, 0, Going), From(wordlist, start));
      r.stop == Going ==> r.count == |wordlist|
  {
    RunCounts(c, fetch, Tally(csv, start, 0, 0, Going), From(wordlist, start));
  }

  // ---- The script's state ----

  /** The script's globals, and the rows of output.csv. */
  class Scraper {
    var verbose: bool
    var comprehensiveMode: bool
    var startpoint: int
    var targetLang: Option<string>
    var nativeLang: Option<string>
    var outpath: Option<string>
    var inpath: Option<string>
    var delay: Option<int>
    var sentencesEnabled: bool
    var definitionsEnabled: bool
    var audioEnabled: bool
    var langs: seq<string>
    var wordlist: seq<string>
    var csv: seq<seq<string>>

    function Settings(): Config
      reads this
    {
      Config(verbose, comprehensiveMode, startpoint, targetLang, nativeLang,
             outpath, inpath, delay, sentencesEnabled, definitionsEnabled, audioEnabled)
    }

    /** The globals at import time; `existing` is what output.csv already holds. */
    constructor (existing: seq<seq<string>>)
      ensures Settings() == InitialConfig() && langs == [] && wordlist == [] && csv == existing
    {
      verbose, comprehensiveMode, startpoint := false, false, 0;
      targetLang, nativeLang, outpath, inpath, delay := None, None, None, None, None;
      sentencesEnabled, definitionsEnabled, audioEnabled := true, true, true;
      langs, wordlist, csv := [], [], existing;
    }

    /** importlangcodes: the comma-separated contents of codes.array. */
    method ImportLangCodes(codes: string)
      modifies this
      ensures langs == Split(codes, ',')
      ensures Settings() == old(Settings()) && wordlist == old(wordlist) && csv == old(csv)
    {
      langs := Split(codes, ',');
    }

    /** checkflags over getopt's (option, argument) pairs. */
    method CheckFlags(opts: seq<Opt>, parseInt: string -> Option<int>) returns (exit: Exit)
      modifies this
      ensures (Settings(), exit) == Flags(langs, parseInt, old(Settings()), opts)
      ensures langs == old(langs) && wordlist == old(wordlist) && csv == old(csv)
    {
      var k := 0;
      while k < |opts|
        invariant 0 <= k <= |opts|
        invariant Flags(langs, parseInt, Settings(), opts[k..]) == Flags(langs, parseInt, old(Settings()), opts)
        invariant langs == old(langs) && wordlist == old(wordlist) && csv == old(csv)
      {
        assert opts[k..][1..] == opts[k + 1..];
        var step := ApplyOption(langs, parseInt, Settings(), opts[k]);
        SetSettings(step.0);
        if step.1 != Proceed {
          return step.1;
        }
        k := k + 1;
      }
      assert opts[k..] == [];
      exit := Proceed;
    }

    method SetSettings(c: Config)
      modifies this
      ensures Settings() == c
      ensures langs == old(langs) && wordlist == old(wordlist) && csv == old(csv)
    {
      verbose, comprehensiveMode, startpoint := c.verbose, c.comprehensive, c.startpoint;
      targetLang, nativeLang, outpath, inpath, delay := c.targetLang, c.nativeLang, c.outpath, c.inpath, c.delay;
      sentencesEnabled, definitionsEnabled, audioEnabled := c.sentencesEnabled, c.definitionsEnabled, c.audioEnabled;
    }

    /** getwordlist: each line of the file with its newline removed, appended to the
        list; a start point beyond the list's length quits. */
    method GetWordList(lines: seq<string>) returns (exit: Exit)
      modifies this
      ensures |wordlist| == |old(wordlist)| + |lines| && wordlist[..|old(wordlist)|] == old(wordlist)
      ensures forall i :: 0 <= i < |lines| ==> wordlist[|old(wordlist)| + i] == Filter(lines[i], (ch: char) => ch != '\n')
      ensures exit == (if |wordlist| < startpoint then Quit else Proceed)
      ensures Settings() == old(Settings()) && langs == old(langs) && csv == old(csv)
    {
      for k := 0 to |lines|
        invariant |wordlist| == |old(wordlist)| + k && wordlist[..|old(wordlist)|] == old(wordlist)
        invariant forall i :: 0 <= i < k ==> wordlist[|old(wordlist)| + i] == Filter(lines[i], (ch: char) => ch != '\n')
        invariant Settings() == old(Settings()) && langs == old(langs) && csv == old(csv)
      {
        wordlist := wordlist + [Filter(lines[k], (ch: char) => ch != '\n')];
      }
      exit := if |wordlist| < startpoint then Quit else Proceed;
    }

    /** The attribute loops: each item's text followed by ", ", then rstrip(", "). */
    method Attributes(spans: seq<seq<string>>) returns (attributes: string)
      ensures attributes == RStripChars(AttributeText(spans), CommaSpace())
    {
      attributes := "";
      for j := 0 to |spans|
        invariant attributes == AttributeText(spans[..j])
      {
        assert spans[..j + 1][..j] == spans[..j];
        var span := spans[j];
        ghost var before := attributes;
        for k := 0 to |span|
          invariant attributes == before + Pieces(span[..k])
        {
          assert span[..k + 1] == span[..k] + [span[k]];
          PiecesSnoc(span[..k], span[k]);
          attributes := attributes + span[k] + ", ";
        }
        assert span[..|span|] == span;
      }
      assert spans[..|spans|] == spans;
      attributes := RStripChars(attributes, {',', ' '});
    }

    /** The translation loop: each item's stripped h3 text followed by ", ". */
    method AccumulateTranslations(items: seq<Option<string>>) returns (translation: string)
      ensures translation == Pieces(PhraseTexts(items))
    {
      translation := "";
      for k := 0 to |items|
        invariant translation == Pieces(PhraseTexts(items[..k]))
      {
        assert items[..k + 1][..k] == items[..k];
        var item := items[k];
        assert PhraseTexts(items[..k + 1])
            == PhraseTexts(items[..k]) + (if item.Some? then [Strip(item.value)] else []);
        if item.Some? {
          PiecesSnoc(PhraseTexts(items[..k]), Strip(item.value));
          translation := translation + Strip(item.value) + ", ";
        } else {
          assert PhraseTexts(items[..k]) + [] == PhraseTexts(items[..k]);
        }
      }
      assert items[..|items|] == items;
    }

    /** The body of the word loop, up to the row it would write. */
    method ProcessWord(word: string, f: Fetch) returns (v: Visit)
      ensures v == VisitWord(Settings(), word, f)
    {
      if f.Unreachable? {
        return Down;
      }
      var page := f.page;
      if page.attributes.Some? {
        var attributes := Attributes(page.attributes.value);
      } else if comprehensiveMode {
        return Skip;
      }
      var audioUrl := "";
      if audioEnabled {
        var failed;
        audioUrl, failed := GetAudio(page.audio);
        if failed && comprehensiveMode {
          return Skip;
        }
      }
      var translation, failed := GetTranslation(page.phrases);
      if failed && comprehensiveMode {
        return Skip;
      }
      var sentences, noSentences := GetExampleSentences(page.examples);
      if noSentences && comprehensiveMode {
        return Skip;
      }
      var row := DataToWrite(word, translation, audioUrl, sentences);
      v := Save(row);
    }

    /** datatowrite: the word, then the enabled columns' cells. */
    method DataToWrite(word: string, translation: string, audioUrl: string, sentences: (string, string))
      returns (row: seq<string>)
      ensures row == Row(Settings(), word, translation, audioUrl, sentences)
    {
      row := [word];
      if definitionsEnabled {
        row := row + [translation];
      }
      if audioEnabled {
        row := row + [audioUrl];
      }
      if sentencesEnabled {
        row := row + [sentences.0, sentences.1];
      }
    }

    /** The audio lookup: the URL is set before the file is fetched and saved. */
    method GetAudio(a: Audio) returns (audioUrl: string, failed: bool)
      ensures (audioUrl, failed) == AudioPart(a)
    {
      audioUrl := "";
      match a {
        case Button(dataFile, saved) =>
          if dataFile != "" {
            audioUrl := "https://glosbe.com/fb_aud/" + dataFile;
            failed := !saved;
          } else {
            failed := true;
          }
        case NoButton =>
          failed := true;
        case AudioError =>
          failed := true;
      }
    }

    method GetTranslation(p: Phrases) returns (translation: string, failed: bool)
      ensures (translation, failed) == TranslationPart(p)
    {
      match p {
        case Phrases(items) =>
          translation := AccumulateTranslations(items);
          translation := RStripChars(translation, {',', ' '});
          failed := false;
        case PhrasesError(before) =>
          translation := AccumulateTranslations(before);
          failed := true;
      }
    }

    method GetExampleSentences(e: Examples) returns (sentences: (string, string), failed: bool)
      ensures (sentences, failed) == SentencePart(e)
    {
      sentences := ("", "");
      failed := false;
      match e {
        case Examples(ps) =>
          if |ps| >= 2 {
            sentences := (Strip(ps[0]), Strip(ps[1]));
          }
        case ExamplesError =>
          failed := true;
      }
    }

    /** getsentences: the loop over wordlist[startpoint:], with its counters. */
    method GetSentences(fetch: string -> Fetch) returns (count: int, saved: nat, skipped: nat, stop: Stop)
      modifies this
      ensures Tally(csv, count, saved, skipped, stop)
           == Run(old(Settings()), fetch, Tally(old(csv), old(startpoint), 0, 0, Going), From(old(wordlist), old(startpoint)))
      ensures Settings() == old(Settings()) && langs == old(langs) && wordlist == old(wordlist)
    {
      ghost var c := Settings();
      ghost var start := Tally(csv, startpoint, 0, 0, Going);
      var words := From(wordlist, startpoint);
      count, saved, skipped, stop := startpoint, 0, 0, Going;
      var k := 0;
      while k < |words|
        invariant 0 <= k <= |words|
        invariant stop == Going && Tally(csv, count, saved, skipped, stop) == Run(c, fetch, start, words[..k])
        invariant Settings() == c && langs == old(langs) && wordlist == old(wordlist)
      {
        RunNext(c, fetch, start, words, k);
        var word := words[k];
        var v := ProcessWord(word, fetch(word));
        count, saved, skipped, stop := Record(v, count, saved, skipped);
        if stop != Going {
          RunStaysDown(c, fetch, start, words, k + 1);
          return;
        }
        k := k + 1;
      }
      assert words[..k] == words;
    }

    /** One pass's bookkeeping: count += 1; an unreachable page ends the run; a
        skipped word is counted; a saved row is written and counted, then the pause
        `sleep(delay / 1000)` ends the run when it raises. */
    method Record(v: Visit, count0: int, saved0: nat, skipped0: nat) returns (count: int, saved: nat, skipped: nat, stop: Stop)
      modifies this
      ensures Tally(csv, count, saved, skipped, stop) == Step(old(Settings()), Tally(old(csv), count0, saved0, skipped0, Going), v)
      ensures Settings() == old(Settings()) && langs == old(langs) && wordlist == old(wordlist)
    {
      count, saved, skipped, stop := count0 + 1, saved0, skipped0, Going;
      if v == Down {
        stop := Offline;
        return;
      }
      WriteVisit(v);
      if v == Skip {
        skipped := skipped + 1;
      } else {
        saved := saved + 1;
        if delay.None? || delay.value < 0 {
          stop := SleepFailed;
        }
      }
    }

    /** Appends a saved row to output.csv, after the header when the file is empty. */
    method WriteVisit(v: Visit)
      modifies this
      ensures csv == (if v.Save? then old(csv) + (if old(csv) == [] then [Header(Settings())] else []) + [v.row] else old(csv))
      ensures Settings() == old(Settings()) && langs == old(langs) && wordlist == old(wordlist)
    {
      if v.Save? {
        if csv == [] {
          var headers := ["word"];
          if definitionsEnabled {
            headers := headers + ["translation"];
          }
          if audioEnabled {
            headers := headers + ["audio_url"];
          }
          if sentencesEnabled {
            headers := headers + ["sentence_native", "sentence_target"];
          }
          assert headers == Header(Settings());
          csv := csv + [headers];
        }
        csv := csv + [v.row];
      }
    }
  }
}
