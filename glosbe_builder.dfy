/** The resumable batch builder of the Glosbe dictionary script (DictionaryBuilder in
    glosbe_dictionary_builder.py). The client is an oracle giving each word's outcome;
    the thread pool is an `arrange` function that puts each batch's pending words in
    some completion order, applied one word at a time. */
module GlosbeBuilder {
  import opened Text
  import opened WordList
  import opened Yomitan
  import Chunking
  import Reorder
  import Order
  import ProblemReport
  import opened Dispatch

  /** What the two client calls gave for one word: get_translation's text (None when it
      found none) and get_similar_phrases' examples. */
  datatype Fetched = Fetched(translation: Option<string>, examples: seq<string>)

  /** How a submitted process_word task ended: it returned, or it raised. */
  datatype Outcome = Returned(fetched: Fetched) | Raised

  /** A value of the results dictionary: (translation, flags, examples). */
  datatype Entry = Entry(translation: string, flags: string, examples: seq<string>)

  /** The builder's four fields. */
  datatype Book = Book(
    translations: map<string, string>,
    examples: map<string, seq<string>>,
    processed: set<string>,
    problematic: set<string>)

  /** A progress.json snapshot: the fields and results_count. */
  datatype Snapshot = Snapshot(book: Book, resultsCount: nat)

  /** The state a process_words call works on: the fields, its results dictionary and
      the snapshots saved so far, oldest first. */
  datatype Run = Run(book: Book, results: map<string, Entry>, saves: seq<Snapshot>)

  function EmptyBook(): Book { Book(map[], map[], {}, {}) }

  /** process_word's check: no text, or text that strips to nothing, is no translation;
      a translation is returned stripped. */
  function Validate(t: Option<string>): (r: Option<string>)
    ensures r.None? <==> (t.None? || Strip(t.value) == "")
    ensures r.Some? ==> r.value == Strip(t.value) && r.value != "" && Trimmed(r.value)
  {
    if t.None? || Strip(t.value) == "" then None else Some(Strip(t.value))
  }

  /** The outcome yields a result: the task returned a valid translation. */
  predicate Succeeds(o: Outcome) {
    o.Returned? && Validate(o.fetched.translation).Some?
  }

  /** One completed task: on success the word's result, translation and examples are
      recorded; otherwise it becomes problematic; in every case it is processed. */
  function Complete(run: Run, p: Pair, o: Outcome): Run {
    var w, b := p.word, run.book;
    if Succeeds(o) then
      var t := Validate(o.fetched.translation).value;
      Run(Book(b.translations[w := t], b.examples[w := o.fetched.examples], b.processed + {w}, b.problematic),
          run.results[w := Entry(t, p.flags, o.fetched.examples)], run.saves)
    else
      Run(b.(processed := b.processed + {w}, problematic := b.problematic + {w}), run.results, run.saves)
  }

  function Step(outcome: string -> Outcome): (Run, Pair) -> Run {
    (r: Run, p: Pair) => Complete(r, p, outcome(p.word))
  }

  function Saved(run: Run): Run {
    run.(saves := run.saves + [Snapshot(run.book, |run.results|)])
  }

  /** One batch: the pending words complete in the order `arrange` gives, then the
      progress is saved, whether or not anything was pending. */
  function Batch(run: Run, batch: seq<Pair>, outcome: string -> Outcome, arrange: seq<Pair> -> seq<Pair>): Run {
    var pending := Pending(run.book.processed, batch);
    Saved(if pending == [] then run else Reorder.Fold(Step(outcome), run, arrange(pending)))
  }

  function BatchStep(outcome: string -> Outcome, arrange: seq<Pair> -> seq<Pair>): (Run, seq<Pair>) -> Run {
    (r: Run, batch: seq<Pair>) => Batch(r, batch, outcome, arrange)
  }

  /** process_words: the batches of `size` consecutive pairs, one after the other. */
  function ProcessAll(run: Run, pairs: seq<Pair>, size: nat, outcome: string -> Outcome, arrange: seq<Pair> -> seq<Pair>): Run
    requires size > 0
  {
    Reorder.Fold(BatchStep(outcome, arrange), run, Chunking.Chunks(pairs, size))
  }

  /** The batches from position i on, folded onto `run`. */
  function Remaining(run: Run, pairs: seq<Pair>, i: nat, size: nat, outcome: string -> Outcome, arrange: seq<Pair> -> seq<Pair>): Run
    requires size > 0 && i <= |pairs|
  {
    Reorder.Fold(BatchStep(outcome, arrange), run, Chunking.Chunks(pairs[i..], size))
  }

  /** The batch at position i, then the batches after it. */
  lemma {:induction false} RemainingNext(run: Run, next: Run, pairs: seq<Pair>, i: nat, size: nat, outcome: string -> Outcome, arrange: seq<Pair> -> seq<Pair>)
    requires size > 0 && i < |pairs|
    requires next == Batch(run, pairs[i..i + Chunking.Min(size, |pairs| - i)], outcome, arrange)
    ensures Remaining(run, pairs, i, size, outcome, arrange) == Remaining(next, pairs, i + Chunking.Min(size, |pairs| - i), size, outcome, arrange)
  {
    var m := Chunking.Min(size, |pairs| - i);
    FoldChunksNext(BatchStep(outcome, arrange), run, pairs, size, i);
    assert BatchStep(outcome, arrange)(run, pairs[i..i + m]) == Batch(run, pairs[i..i + m], outcome, arrange);
  }

  /** From position 0 it is the whole of process_words; past the end it is nothing. */
  lemma {:induction false} RemainingEnds(run: Run, pairs: seq<Pair>, size: nat, outcome: string -> Outcome, arrange: seq<Pair> -> seq<Pair>)
    requires size > 0
    ensures Remaining(run, pairs, 0, size, outcome, arrange) == ProcessAll(run, pairs, size, outcome, arrange)
    ensures Remaining(run, pairs, |pairs|, size, outcome, arrange) == run
  {
    assert pairs[0..] == pairs;
    assert Chunking.Chunks(pairs[|pairs|..], size) == [];
  }

  // ---- One completion ----

  /** A completion touches only its own word: every other word keeps its processed and
      problematic status, its translation, its examples and its result. */
  ghost predicate Agrees(a: Run, b: Run, w: string) {
    && (w in a.book.processed <==> w in b.book.processed)
    && (w in a.book.problematic <==> w in b.book.problematic)
    && (w in a.book.translations <==> w in b.book.translations)
    && (w in a.book.translations ==> a.book.translations[w] == b.book.translations[w])
    && (w in a.book.examples <==> w in b.book.examples)
    && (w in a.book.examples ==> a.book.examples[w] == b.book.examples[w])
    && (w in a.results <==> w in b.results)
    && (w in a.results ==> a.results[w] == b.results[w])
  }

  lemma {:induction false} CompleteSpec(run: Run, p: Pair, o: Outcome)
    ensures Complete(run, p, o).book.processed == run.book.processed + {p.word}
    ensures Complete(run, p, o).book.problematic == run.book.problematic + (if Succeeds(o) then {} else {p.word})
    ensures Succeeds(o) ==> Complete(run, p, o).results == run.results[p.word := Entry(Validate(o.fetched.translation).value, p.flags, o.fetched.examples)]
    ensures !Succeeds(o) ==> Complete(run, p, o).results == run.results && Complete(run, p, o).book.translations == run.book.translations
    ensures forall v :: v != p.word ==> Agrees(Complete(run, p, o), run, v)
    ensures Complete(run, p, o).saves == run.saves
  {
  }

  /** Completions of different words commute. */
  lemma {:induction false} StepCommutes(outcome: string -> Outcome)
    ensures Reorder.Commutes(Step(outcome), WordOf)
  {
    var step := Step(outcome);
    forall s: Run, a: Pair, b: Pair | a.word != b.word
      ensures step(step(s, a), b) == step(step(s, b), a)
    {
      CompleteCommutes(s, a, outcome(a.word), b, outcome(b.word));
    }
  }

  lemma {:induction false} CompleteCommutes(s: Run, a: Pair, oa: Outcome, b: Pair, ob: Outcome)
    requires a.word != b.word
    ensures Complete(Complete(s, a, oa), b, ob) == Complete(Complete(s, b, ob), a, oa)
  {
    if Succeeds(oa) && Succeeds(ob) {
      var ta, tb := Validate(oa.fetched.translation).value, Validate(ob.fetched.translation).value;
      Reorder.MapSwap(s.book.translations, a.word, ta, b.word, tb);
      Reorder.MapSwap(s.book.examples, a.word, oa.fetched.examples, b.word, ob.fetched.examples);
      Reorder.MapSwap(s.results, a.word, Entry(ta, a.flags, oa.fetched.examples), b.word, Entry(tb, b.flags, ob.fetched.examples));
    }
  }

  // ---- Invariants of a run ----

  /** The fields agree with what the run recorded: every problematic word and every
      result is processed, and each result's translation and examples are the ones
      stored for the word. */
  ghost predicate Consistent(run: Run) {
    && run.book.problematic <= run.book.processed
    && run.results.Keys <= run.book.processed
    && forall w :: w in run.results ==>
         && w in run.book.translations && run.book.translations[w] == run.results[w].translation
         && w in run.book.examples && run.book.examples[w] == run.results[w].examples
  }

  lemma {:induction false} CompleteConsistent(run: Run, p: Pair, o: Outcome)
    requires Consistent(run)
    ensures Consistent(Complete(run, p, o))
  {
  }

  lemma {:induction false} BatchConsistent(run: Run, batch: seq<Pair>, outcome: string -> Outcome, arrange: seq<Pair> -> seq<Pair>)
    requires Consistent(run)
    ensures Consistent(Batch(run, batch, outcome, arrange))
  {
    var pending := Pending(run.book.processed, batch);
    if pending != [] {
      forall t: Run, x: Pair | x in arrange(pending) && Consistent(t) ensures Consistent(Step(outcome)(t, x)) {
        CompleteConsistent(t, x, outcome(x.word));
      }
      Reorder.FoldPreserves(Step(outcome), Consistent, run, arrange(pending));
    }
  }

  /** process_words keeps the fields consistent: a problematic word is always a
      processed word, and every result is stored in translations and examples. */
  lemma {:induction false} ProcessAllConsistent(run: Run, pairs: seq<Pair>, size: nat, outcome: string -> Outcome, arrange: seq<Pair> -> seq<Pair>)
    requires size > 0 && Consistent(run)
    ensures Consistent(ProcessAll(run, pairs, size, outcome, arrange))
  {
    forall t: Run, b: seq<Pair> | b in Chunking.Chunks(pairs, size) && Consistent(t)
      ensures Consistent(BatchStep(outcome, arrange)(t, b))
    {
      BatchConsistent(t, b, outcome, arrange);
    }
    Reorder.FoldPreserves(BatchStep(outcome, arrange), Consistent, run, Chunking.Chunks(pairs, size));
  }

  /** The problematic set only grows: a later success does not clear it. */
  lemma {:induction false} ProblematicGrows(run: Run, pairs: seq<Pair>, size: nat, outcome: string -> Outcome, arrange: seq<Pair> -> seq<Pair>)
    requires size > 0
    ensures run.book.problematic <= ProcessAll(run, pairs, size, outcome, arrange).book.problematic
  {
    var p0 := run.book.problematic;
    var inv := (t: Run) => p0 <= t.book.problematic;
    forall t: Run, b: seq<Pair> | b in Chunking.Chunks(pairs, size) && inv(t)
      ensures inv(BatchStep(outcome, arrange)(t, b))
    {
      var pending := Pending(t.book.processed, b);
      if pending != [] {
        forall u: Run, x: Pair | x in arrange(pending) && inv(u) ensures inv(Step(outcome)(u, x)) {
          CompleteSpec(u, x, outcome(x.word));
        }
        Reorder.FoldPreserves(Step(outcome), inv, t, arrange(pending));
      }
    }
    Reorder.FoldPreserves(BatchStep(outcome, arrange), inv, run, Chunking.Chunks(pairs, size));
  }

  // ---- What gets processed ----

  lemma {:induction false} FoldProcessed(run: Run, order: seq<Pair>, outcome: string -> Outcome)
    ensures Reorder.Fold(Step(outcome), run, order).book.processed == run.book.processed + Words(order)
    decreases |order|
  {
    if order != [] {
      CompleteSpec(run, order[0], outcome(order[0].word));
      FoldProcessed(Step(outcome)(run, order[0]), order[1..], outcome);
    }
  }

  lemma {:induction false} BatchProcessed(run: Run, batch: seq<Pair>, outcome: string -> Outcome, arrange: seq<Pair> -> seq<Pair>)
    requires Permutes(arrange)
    ensures Batch(run, batch, outcome, arrange).book.processed == run.book.processed + Words(batch)
  {
    var pending := Pending(run.book.processed, batch);
    PendingWords(run.book.processed, batch);
    if pending != [] {
      assert multiset(arrange(pending)) == multiset(pending);
      WordsPermuted(arrange(pending), pending);
      FoldProcessed(run, arrange(pending), outcome);
    }
  }

  /** After process_words every queued word is processed, whatever its outcome, and no
      other word became processed. */
  lemma {:induction false} ProcessAllProcessed(run: Run, pairs: seq<Pair>, size: nat, outcome: string -> Outcome, arrange: seq<Pair> -> seq<Pair>)
    requires size > 0 && Permutes(arrange)
    ensures ProcessAll(run, pairs, size, outcome, arrange).book.processed == run.book.processed + Words(pairs)
    decreases |pairs|
  {
    if pairs != [] {
      var m := Chunking.Min(size, |pairs|);
      assert pairs == pairs[..m] + pairs[m..];
      WordsAppend(pairs[..m], pairs[m..]);
      BatchProcessed(run, pairs[..m], outcome, arrange);
      ProcessAllProcessed(Batch(run, pairs[..m], outcome, arrange), pairs[m..], size, outcome, arrange);
    }
  }

  // ---- Snapshots ----

  lemma {:induction false} FoldSaves(run: Run, order: seq<Pair>, outcome: string -> Outcome)
    ensures Reorder.Fold(Step(outcome), run, order).saves == run.saves
    decreases |order|
  {
    if order != [] {
      assert Step(outcome)(run, order[0]) == Complete(run, order[0], outcome(order[0].word));
      FoldSaves(Step(outcome)(run, order[0]), order[1..], outcome);
    }
  }

  /** A batch appends one snapshot, of the fields it ends with. */
  lemma {:induction false} BatchSaved(run: Run, batch: seq<Pair>, outcome: string -> Outcome, arrange: seq<Pair> -> seq<Pair>)
    ensures var n := Batch(run, batch, outcome, arrange);
      n.saves == run.saves + [Snapshot(n.book, |n.results|)]
  {
    var pending := Pending(run.book.processed, batch);
    if pending != [] { FoldSaves(run, arrange(pending), outcome); }
  }

  /** Exactly one snapshot per batch, so ceil(n / size) in all, appended to the earlier
      ones; when there was a batch the last snapshot holds the final fields and the size
      of the run's results. */
  lemma {:induction false} ProcessAllSaves(run: Run, pairs: seq<Pair>, size: nat, outcome: string -> Outcome, arrange: seq<Pair> -> seq<Pair>)
    requires size > 0
    ensures var r := ProcessAll(run, pairs, size, outcome, arrange);
      && |r.saves| == |run.saves| + Chunking.CeilDiv(|pairs|, size)
      && r.saves[..|run.saves|] == run.saves
      && (pairs != [] ==> r.saves[|r.saves| - 1] == Snapshot(r.book, |r.results|))
    decreases |pairs|
  {
    Chunking.ChunksShape(pairs, size);
    if pairs != [] {
      var m := Chunking.Min(size, |pairs|);
      var b := pairs[..m];
      var next := Batch(run, b, outcome, arrange);
      BatchSaved(run, b, outcome, arrange);
      ProcessAllSaves(next, pairs[m..], size, outcome, arrange);
      Chunking.ChunksShape(pairs[m..], size);
      var r := ProcessAll(run, pairs, size, outcome, arrange);
      assert r == ProcessAll(next, pairs[m..], size, outcome, arrange);
      assert r.saves[..|next.saves|] == next.saves;
      assert r.saves[..|run.saves|] == r.saves[..|next.saves|][..|run.saves|];
      if pairs[m..] == [] {
        assert Chunking.Chunks(pairs[m..], size) == [];
      }
    }
  }

  // ---- Results ----

  /** The results are exactly the words processed in this run whose task succeeded. */
  ghost predicate ResultsExact(run: Run, before: set<string>, outcome: string -> Outcome) {
    && before <= run.book.processed
    && forall w :: w in run.results <==> (w in run.book.processed && w !in before && Succeeds(outcome(w)))
  }

  lemma {:induction false} BatchResults(run: Run, batch: seq<Pair>, before: set<string>, outcome: string -> Outcome, arrange: seq<Pair> -> seq<Pair>)
    requires Permutes(arrange) && ResultsExact(run, before, outcome)
    ensures ResultsExact(Batch(run, batch, outcome, arrange), before, outcome)
  {
    var pending := Pending(run.book.processed, batch);
    if pending != [] {
      var inv := (t: Run) => ResultsExact(t, before, outcome);
      forall t: Run, x: Pair | x in arrange(pending) && inv(t) ensures inv(Step(outcome)(t, x)) {
        assert x in multiset(pending);
        assert x.word !in run.book.processed;
        CompleteSpec(t, x, outcome(x.word));
      }
      Reorder.FoldPreserves(Step(outcome), inv, run, arrange(pending));
    }
  }

  /** A run started with no results ends with a result for exactly the queued words
      that were not processed before and whose task returned a valid translation. */
  lemma {:induction false} ProcessAllResults(run: Run, pairs: seq<Pair>, size: nat, outcome: string -> Outcome, arrange: seq<Pair> -> seq<Pair>)
    requires size > 0 && Permutes(arrange) && run.results == map[]
    ensures forall w :: (w in ProcessAll(run, pairs, size, outcome, arrange).results
      <==> (w in Words(pairs) && w !in run.book.processed && Succeeds(outcome(w))))
  {
    var before := run.book.processed;
    var inv := (t: Run) => ResultsExact(t, before, outcome);
    forall t: Run, b: seq<Pair> | b in Chunking.Chunks(pairs, size) && inv(t)
      ensures inv(BatchStep(outcome, arrange)(t, b))
    {
      BatchResults(t, b, before, outcome, arrange);
    }
    Reorder.FoldPreserves(BatchStep(outcome, arrange), inv, run, Chunking.Chunks(pairs, size));
    ProcessAllProcessed(run, pairs, size, outcome, arrange);
  }

  /** Words processed before a batch are skipped: nothing about them changes. */
  lemma {:induction false} BatchSkips(run: Run, batch: seq<Pair>, outcome: string -> Outcome, arrange: seq<Pair> -> seq<Pair>, w: string)
    requires Permutes(arrange) && w in run.book.processed
    ensures Agrees(Batch(run, batch, outcome, arrange), run, w)
  {
    var pending := Pending(run.book.processed, batch);
    if pending != [] {
      var inv := (t: Run) => Agrees(t, run, w);
      forall t: Run, x: Pair | x in arrange(pending) && inv(t) ensures inv(Step(outcome)(t, x)) {
        assert x in multiset(pending);
        CompleteSpec(t, x, outcome(x.word));
        assert Agrees(Step(outcome)(t, x), t, w);
      }
      Reorder.FoldPreserves(Step(outcome), inv, run, arrange(pending));
    }
  }

  // ---- Completion order ----

  /** Within a batch the completion order does not matter. */
  lemma {:induction false} BatchOrderIrrelevant(run: Run, batch: seq<Pair>, outcome: string -> Outcome, arrange1: seq<Pair> -> seq<Pair>, arrange2: seq<Pair> -> seq<Pair>)
    requires Permutes(arrange1) && Permutes(arrange2)
    requires Reorder.DistinctKeys(WordOf, batch)
    ensures Batch(run, batch, outcome, arrange1) == Batch(run, batch, outcome, arrange2)
  {
    var pending := Pending(run.book.processed, batch);
    if pending != [] {
      StepCommutes(outcome);
      PendingDistinct(run.book.processed, batch);
      assert multiset(arrange1(pending)) == multiset(pending);
      assert multiset(arrange2(pending)) == multiset(pending);
      Reorder.PermutationInvariant(Step(outcome), WordOf, run, arrange1(pending), pending);
      Reorder.PermutationInvariant(Step(outcome), WordOf, run, arrange2(pending), pending);
    }
  }

  /** For a queue without repeated words, every completion order of the thread pool
      leads to the same fields, results and snapshots. */
  lemma {:induction false} ProcessAllOrderIrrelevant(run: Run, pairs: seq<Pair>, size: nat, outcome: string -> Outcome, arrange1: seq<Pair> -> seq<Pair>, arrange2: seq<Pair> -> seq<Pair>)
    requires size > 0 && Permutes(arrange1) && Permutes(arrange2)
    requires DistinctWords(pairs)
    ensures ProcessAll(run, pairs, size, outcome, arrange1) == ProcessAll(run, pairs, size, outcome, arrange2)
    decreases |pairs|
  {
    if pairs != [] {
      var m := Chunking.Min(size, |pairs|);
      var b, rest := pairs[..m], pairs[m..];
      assert Reorder.DistinctKeys(WordOf, b) by {
        forall i, j | 0 <= i < j < |b| ensures WordOf(b[i]) != WordOf(b[j]) {
          assert b[i] == pairs[i] && b[j] == pairs[j];
        }
      }
      assert DistinctWords(rest) by {
        forall i, j | 0 <= i < j < |rest| ensures rest[i].word != rest[j].word {
          assert rest[i] == pairs[i + m] && rest[j] == pairs[j + m];
        }
      }
      BatchOrderIrrelevant(run, b, outcome, arrange1, arrange2);
      ProcessAllOrderIrrelevant(Batch(run, b, outcome, arrange1), rest, size, outcome, arrange1, arrange2);
    }
  }

  // ---- progress.json ----

  /** progress.json as json.load reads it: each key may be missing. */
  datatype Stored = Stored(
    translations: Option<map<string, string>>,
    examples: Option<map<string, seq<string>>>,
    processedWords: Option<seq<string>>,
    problematicWords: Option<seq<string>>,
    resultsCount: Option<int>)

  /** save_progress's record; the sets are written as lists in some order. */
  function Written(s: Snapshot, processedOrder: seq<string>, problematicOrder: seq<string>): Stored {
    Stored(Some(s.book.translations), Some(s.book.examples), Some(processedOrder), Some(problematicOrder), Some(s.resultsCount))
  }

  /** load_progress: no file keeps the fields; otherwise every field is replaced by the
      stored value, or by an empty one when its key is missing. */
  function Restore(current: Book, file: Option<Stored>): (b: Book)
    ensures file.None? ==> b == current
    ensures file.Some? ==> b.processed == Order.Elems(OrElse(file.value.processedWords, []))
    ensures file.Some? ==> b.problematic == Order.Elems(OrElse(file.value.problematicWords, []))
  {
    match file
    case None => current
    case Some(d) =>
      Book(OrElse(d.translations, map[]), OrElse(d.examples, map[]),
           Order.Elems(OrElse(d.processedWords, [])), Order.Elems(OrElse(d.problematicWords, [])))
  }

  /** Loading a saved snapshot gives back the fields it was taken from, whatever the
      listing order of the sets and whatever the fields were before. */
  lemma {:induction false} RestoreWritten(current: Book, s: Snapshot, processedOrder: seq<string>, problematicOrder: seq<string>)
    requires Order.Elems(processedOrder) == s.book.processed
    requires Order.Elems(problematicOrder) == s.book.problematic
    ensures Restore(current, Some(Written(s, processedOrder, problematicOrder))) == s.book
  {
  }

  // ---- Term entries ----

  /** create_yomichan_entry: [term, "", "", "unknown", 0, [structured content]]. */
  function CreateEntry(spanish: string, korean: string, flags: string, examples: seq<string>): Json {
    JArr([JStr(spanish), JStr(""), JStr(""), JStr("unknown"), JInt(0),
          JArr([StructuredContent(EntryContent(korean, flags, examples))])])
  }

  /** The six fields in order, ending in one structured-content definition whose
      content is the assembled list (what EntryContentReads reads back). */
  lemma {:induction false} CreateEntrySpec(spanish: string, korean: string, flags: string, examples: seq<string>)
    ensures var f := TermFields(CreateEntry(spanish, korean, flags, examples));
      |f| == 6 && f[0] == JStr(spanish) && f[1] == JStr("") && f[2] == JStr("")
      && f[3] == JStr("unknown") && f[4] == JInt(0)
    ensures ContentBlocks(CreateEntry(spanish, korean, flags, examples)) == EntryContent(korean, flags, examples)
  {
    StructuredContentReads(EntryContent(korean, flags, examples));
  }

  // ---- The builder ----

  class Builder {
    var translations: map<string, string>
    var examples: map<string, seq<string>>
    var processedWords: set<string>
    var problematicWords: set<string>
    /** The progress.json snapshots written so far, oldest first. */
    var saves: seq<Snapshot>

    function Fields(): Book
      reads this
    {
      Book(translations, examples, processedWords, problematicWords)
    }

    constructor ()
      ensures Fields() == EmptyBook() && saves == []
    {
      translations, examples := map[], map[];
      processedWords, problematicWords := {}, {};
      saves := [];
    }

    /** process_word, given what the client returned for the word. */
    method ProcessWord(word: string, flags: string, fetched: Fetched) returns (translation: Option<string>, examples': seq<string>)
      modifies this
      ensures translation == Validate(fetched.translation) && examples' == fetched.examples
      ensures problematicWords == old(problematicWords) + (if translation.None? then {word} else {})
      ensures translations == old(translations) && examples == old(examples)
      ensures processedWords == old(processedWords) && saves == old(saves)
    {
      examples' := fetched.examples;
      if fetched.translation.None? || |Strip(fetched.translation.value)| == 0 {
        problematicWords := problematicWords + {word};
        return None, examples';
      }
      translation := Some(Strip(fetched.translation.value));
    }

    method SaveProgress(results: map<string, Entry>)
      modifies this
      ensures saves == old(saves) + [Snapshot(Fields(), |results|)]
      ensures Fields() == old(Fields())
    {
      saves := saves + [Snapshot(Fields(), |results|)];
    }

    method LoadProgress(file: Option<Stored>)
      modifies this
      ensures Fields() == Restore(old(Fields()), file) && saves == old(saves)
    {
      if file.Some? {
        var d := file.value;
        translations := OrElse(d.translations, map[]);
        examples := OrElse(d.examples, map[]);
        processedWords := Order.Elems(OrElse(d.processedWords, []));
        problematicWords := Order.Elems(OrElse(d.problematicWords, []));
      }
    }

    /** process_words over `pairs` in batches of `batchSize`, with `outcome` giving each
        task's result and `arrange` the completion order of each batch. */
    method ProcessWords(pairs: seq<Pair>, batchSize: nat, outcome: string -> Outcome, arrange: seq<Pair> -> seq<Pair>)
      returns (results: map<string, Entry>)
      requires batchSize > 0
      modifies this
      ensures Run(Fields(), results, saves) == ProcessAll(Run(old(Fields()), map[], old(saves)), pairs, batchSize, outcome, arrange)
    {
      ghost var goal := ProcessAll(Run(Fields(), map[], saves), pairs, batchSize, outcome, arrange);
      RemainingEnds(Run(Fields(), map[], saves), pairs, batchSize, outcome, arrange);
      results := map[];
      var i := 0;
      while i < |pairs|
        invariant 0 <= i <= |pairs|
        invariant Remaining(Run(Fields(), results, saves), pairs, i, batchSize, outcome, arrange) == goal
      {
        results, i := ProcessNext(pairs, i, batchSize, outcome, arrange, results);
      }
      RemainingEnds(Run(Fields(), results, saves), pairs, batchSize, outcome, arrange);
    }

    /** The batch at position i: the slice pairs[i:i + batch_size], cut at the end of
        the list. */
    method ProcessNext(pairs: seq<Pair>, i: nat, batchSize: nat, outcome: string -> Outcome, arrange: seq<Pair> -> seq<Pair>, results0: map<string, Entry>)
      returns (results: map<string, Entry>, next: nat)
      requires batchSize > 0 && i < |pairs|
      modifies this
      ensures i < next <= |pairs|
      ensures Remaining(Run(Fields(), results, saves), pairs, next, batchSize, outcome, arrange)
        == Remaining(Run(old(Fields()), results0, old(saves)), pairs, i, batchSize, outcome, arrange)
    {
      var m := Chunking.Min(batchSize, |pairs| - i);
      var batch := pairs[i..i + m];
      ghost var cur := Run(Fields(), results0, saves);
      results := ProcessBatch(batch, outcome, arrange, results0, cur);
      RemainingNext(cur, Run(Fields(), results, saves), pairs, i, batchSize, outcome, arrange);
      next := i + m;
    }

    /** One batch: the words not processed yet are dispatched, then progress is saved. */
    method ProcessBatch(batch: seq<Pair>, outcome: string -> Outcome, arrange: seq<Pair> -> seq<Pair>, results0: map<string, Entry>, ghost cur: Run)
      returns (results: map<string, Entry>)
      requires cur == Run(Fields(), results0, saves)
      modifies this
      ensures Run(Fields(), results, saves) == Batch(cur, batch, outcome, arrange)
    {
      results := results0;
      var done := processedWords;
      var pending := Filter(batch, (p: Pair) => p.word !in done);
      assert pending == Pending(done, batch);
      if pending != [] {
        results := CompleteAll(arrange(pending), outcome, results);
      }
      SaveProgress(results);
    }

    /** The tasks of one batch completing in the order given. */
    method CompleteAll(order: seq<Pair>, outcome: string -> Outcome, results0: map<string, Entry>)
      returns (results: map<string, Entry>)
      modifies this
      ensures Run(Fields(), results, saves) == Reorder.Fold(Step(outcome), Run(old(Fields()), results0, old(saves)), order)
    {
      ghost var start := Run(Fields(), results0, saves);
      results := results0;
      var k := 0;
      assert order[0..] == order;
      while k < |order|
        invariant 0 <= k <= |order|
        invariant Reorder.Fold(Step(outcome), Run(Fields(), results, saves), order[k..]) == Reorder.Fold(Step(outcome), start, order)
      {
        var p := order[k];
        Reorder.FoldUnroll(Step(outcome), Run(Fields(), results, saves), order, k);
        results := CompleteOne(p, outcome(p.word), results);
        k := k + 1;
      }
      assert order[|order|..] == [];
    }

    /** One completed task (the body of the as_completed loop). */
    method CompleteOne(p: Pair, o: Outcome, results0: map<string, Entry>) returns (results: map<string, Entry>)
      modifies this
      ensures Run(Fields(), results, saves) == Complete(Run(old(Fields()), results0, old(saves)), p, o)
    {
      results := results0;
      match o {
        case Raised =>
          problematicWords := problematicWords + {p.word};
        case Returned(fetched) =>
          var translation, exs := ProcessWord(p.word, p.flags, fetched);
          if translation.Some? {
            results := results[p.word := Entry(translation.value, p.flags, exs)];
            translations := translations[p.word := translation.value];
            examples := examples[p.word := exs];
          }
      }
      processedWords := processedWords + {p.word};
    }

    /** save_problematic_words on this class's problematic set: the report itself is
        ProblemReport.Report; each script defines the method on its own class. */
    method SaveProblematicWords() returns (writes: seq<string>)
      ensures |writes| == 3 + |problematicWords| && writes[..3] == ProblemReport.Header()
      ensures exists ws :: (Order.StrictlySorted(ws) && Order.Elems(ws) == problematicWords
        && writes == ProblemReport.Header() + ProblemReport.Rows(ws))
    {
      writes := ProblemReport.Report(problematicWords);
    }

    /** save_yomichan: one entry per result, in the dictionary's order `keys`. */
    method SaveYomichan(results: map<string, Entry>, keys: seq<string>) returns (entries: seq<Json>)
      requires Order.ListsOnce(keys, results.Keys)
      ensures |entries| == |results|
      ensures |entries| == |keys|
      ensures forall k :: 0 <= k < |keys| ==>
        entries[k] == CreateEntry(keys[k], results[keys[k]].translation, results[keys[k]].flags, results[keys[k]].examples)
    {
      entries := [];
      for k := 0 to |keys|
        invariant |entries| == k
        invariant forall j :: 0 <= j < k ==>
          entries[j] == CreateEntry(keys[j], results[keys[j]].translation, results[keys[j]].flags, results[keys[j]].examples)
      {
        var e := results[keys[k]];
        entries := entries + [CreateEntry(keys[k], e.translation, e.flags, e.examples)];
      }
      Order.DistinctCount(keys);
      assert |results| == |results.Keys|;
    }
  }
}
