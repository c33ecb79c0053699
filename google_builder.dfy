/** The fast builder of google_translate_dictionary_builder.py: its DictionaryBuilder
    (translations only, no examples; a later success clears a word's problematic mark)
    and the queue its main function builds. The client is an oracle giving each word's
    reply; the thread pool is an `arrange` function putting each batch's pending words
    in completion order, applied one word at a time.

    The batch lemmas (FoldProcessed to ProcessAllOrderIrrelevant) have the shape of
    GlosbeBuilder's, but are stated again here: this script's fields, results and
    completion step are its own types and its own function, since it keeps no
    examples and a success clears the problematic mark. */
module GoogleBuilder {
  import opened Text
  import opened WordList
  import opened Yomitan
  import Chunking
  import Reorder
  import Order
  import ProblemReport
  import opened Dispatch

  /** What client.get_translation did for one word: it returned data[0][0][0] (any
      parsed value, see GoogleClient.FirstText) or None, or it raised. */
  datatype Reply = Returned(value: Option<Json>) | Raised

  /** A value of the results dictionary: (translation, flags). */
  datatype Entry = Entry(translation: string, flags: string)

  /** The builder's three fields. */
  datatype Book = Book(translations: map<string, string>, processed: set<string>, problematic: set<string>)

  /** A progress.json snapshot: the fields and results_count. */
  datatype Snapshot = Snapshot(book: Book, resultsCount: nat)

  /** The state a process_words call works on: the fields, its results dictionary and
      the snapshots saved so far, oldest first. */
  datatype Run = Run(book: Book, results: map<string, Entry>, saves: seq<Snapshot>)

  function EmptyBook(): Book { Book(map[], {}, {}) }

  const BatchSize: nat := 100

  /** process_word: it returns a translation only for a string reply that does not
      strip to nothing, and then the stripped string. A falsy reply fails `not
      translation`; any other value that is not a string makes .strip() raise, and an
      exception of get_translation is caught the same way. */
  function ProcessWord(reply: Reply): (r: Option<string>)
    ensures r.Some? <==> (reply.Returned? && reply.value.Some? && reply.value.value.JStr?
                          && Strip(reply.value.value.s) != "")
    ensures r.Some? ==> r.value == Strip(reply.value.value.s) && r.value != "" && Trimmed(r.value)
  {
    match reply
    case Raised => None
    case Returned(None) => None
    case Returned(Some(v)) =>
      if v.JStr? && Strip(v.s) != "" then Some(Strip(v.s)) else None
  }

  predicate Succeeds(r: Reply) {
    ProcessWord(r).Some?
  }

  /** One completed task: on success the word's result and translation are recorded and
      the word leaves the problematic set; otherwise it joins it; in every case it is
      processed. */
  function Complete(run: Run, p: Pair, r: Reply): Run {
    var w, b := p.word, run.book;
    match ProcessWord(r)
    case Some(t) =>
      Run(Book(b.translations[w := t], b.processed + {w}, b.problematic - {w}),
          run.results[w := Entry(t, p.flags)], run.saves)
    case None =>
      Run(b.(processed := b.processed + {w}, problematic := b.problematic + {w}), run.results, run.saves)
  }

  function Step(outcome: string -> Reply): (Run, Pair) -> Run {
    (r: Run, p: Pair) => Complete(r, p, outcome(p.word))
  }

  function Saved(run: Run): Run {
    run.(saves := run.saves + [Snapshot(run.book, |run.results|)])
  }

  /** One batch: the pending words complete in the order `arrange` gives, then the
      progress is saved, whether or not anything was pending. */
  function Batch(run: Run, batch: seq<Pair>, outcome: string -> Reply, arrange: seq<Pair> -> seq<Pair>): Run {
    var pending := Pending(run.book.processed, batch);
    Saved(if pending == [] then run else Reorder.Fold(Step(outcome), run, arrange(pending)))
  }

  function BatchStep(outcome: string -> Reply, arrange: seq<Pair> -> seq<Pair>): (Run, seq<Pair>) -> Run {
    (r: Run, batch: seq<Pair>) => Batch(r, batch, outcome, arrange)
  }

  /** process_words: the batches of `size` consecutive pairs, one after the other. */
  function ProcessAll(run: Run, pairs: seq<Pair>, size: nat, outcome: string -> Reply, arrange: seq<Pair> -> seq<Pair>): Run
    requires size > 0
  {
    Reorder.Fold(BatchStep(outcome, arrange), run, Chunking.Chunks(pairs, size))
  }

  /** The batches from position i on, folded onto `run`. */
  function Remaining(run: Run, pairs: seq<Pair>, i: nat, size: nat, outcome: string -> Reply, arrange: seq<Pair> -> seq<Pair>): Run
    requires size > 0 && i <= |pairs|
  {
    Reorder.Fold(BatchStep(outcome, arrange), run, Chunking.Chunks(pairs[i..], size))
  }

  /** The batch at position i, then the batches after it. */
  lemma {:induction false} RemainingNext(run: Run, next: Run, pairs: seq<Pair>, i: nat, size: nat, outcome: string -> Reply, arrange: seq<Pair> -> seq<Pair>)
    requires size > 0 && i < |pairs|
    requires next == Batch(run, pairs[i..i + Chunking.Min(size, |pairs| - i)], outcome, arrange)
    ensures Remaining(run, pairs, i, size, outcome, arrange) == Remaining(next, pairs, i + Chunking.Min(size, |pairs| - i), size, outcome, arrange)
  {
    var m := Chunking.Min(size, |pairs| - i);
    FoldChunksNext(BatchStep(outcome, arrange), run, pairs, size, i);
    assert BatchStep(outcome, arrange)(run, pairs[i..i + m]) == Batch(run, pairs[i..i + m], outcome, arrange);
  }

  /** From position 0 it is the whole of process_words; past the end it is nothing. */
  lemma {:induction false} RemainingEnds(run: Run, pairs: seq<Pair>, size: nat, outcome: string -> Reply, arrange: seq<Pair> -> seq<Pair>)
    requires size > 0
    ensures Remaining(run, pairs, 0, size, outcome, arrange) == ProcessAll(run, pairs, size, outcome, arrange)
    ensures Remaining(run, pairs, |pairs|, size, outcome, arrange) == run
  {
    assert pairs[0..] == pairs;
    assert Chunking.Chunks(pairs[|pairs|..], size) == [];
  }

  // ---- One completion ----

  /** Two runs agree on word w: its processed and problematic status, its translation
      and its result. */
  ghost predicate Agrees(a: Run, b: Run, w: string) {
    && (w in a.book.processed <==> w in b.book.processed)
    && (w in a.book.problematic <==> w in b.book.problematic)
    && (w in a.book.translations <==> w in b.book.translations)
    && (w in a.book.translations ==> a.book.translations[w] == b.book.translations[w])
    && (w in a.results <==> w in b.results)
    && (w in a.results ==> a.results[w] == b.results[w])
  }

  /** What one completion does to its word, and that it touches no other word. */
  lemma {:induction false} CompleteSpec(run: Run, p: Pair, r: Reply)
    ensures Complete(run, p, r).book.processed == run.book.processed + {p.word}
    ensures Succeeds(r) ==> Complete(run, p, r).book.problematic == run.book.problematic - {p.word}
    ensures !Succeeds(r) ==> Complete(run, p, r).book.problematic == run.book.problematic + {p.word}
    ensures Succeeds(r) ==> Complete(run, p, r).results == run.results[p.word := Entry(ProcessWord(r).value, p.flags)]
    ensures Succeeds(r) ==> Complete(run, p, r).book.translations == run.book.translations[p.word := ProcessWord(r).value]
    ensures !Succeeds(r) ==> Complete(run, p, r).results == run.results && Complete(run, p, r).book.translations == run.book.translations
    ensures forall v :: v != p.word ==> Agrees(Complete(run, p, r), run, v)
    ensures Complete(run, p, r).saves == run.saves
  {
  }

  lemma {:induction false} CompleteCommutes(s: Run, a: Pair, ra: Reply, b: Pair, rb: Reply)
    requires a.word != b.word
    ensures Complete(Complete(s, a, ra), b, rb) == Complete(Complete(s, b, rb), a, ra)
  {
    if Succeeds(ra) && Succeeds(rb) {
      var ta, tb := ProcessWord(ra).value, ProcessWord(rb).value;
      Reorder.MapSwap(s.book.translations, a.word, ta, b.word, tb);
      Reorder.MapSwap(s.results, a.word, Entry(ta, a.flags), b.word, Entry(tb, b.flags));
    }
  }

  /** Completions of different words commute. */
  lemma {:induction false} StepCommutes(outcome: string -> Reply)
    ensures Reorder.Commutes(Step(outcome), WordOf)
  {
    var step := Step(outcome);
    forall s: Run, a: Pair, b: Pair | a.word != b.word
      ensures step(step(s, a), b) == step(step(s, b), a)
    {
      CompleteCommutes(s, a, outcome(a.word), b, outcome(b.word));
    }
  }

  // ---- Invariants of a run ----

  /** Every problematic word and every result is processed, and each result's
      translation is the one stored for the word. */
  ghost predicate Consistent(run: Run) {
    && run.book.problematic <= run.book.processed
    && run.results.Keys <= run.book.processed
    && forall w :: w in run.results ==> w in run.book.translations && run.book.translations[w] == run.results[w].translation
  }

  lemma {:induction false} CompleteConsistent(run: Run, p: Pair, r: Reply)
    requires Consistent(run)
    ensures Consistent(Complete(run, p, r))
  {
  }

  lemma {:induction false} BatchConsistent(run: Run, batch: seq<Pair>, outcome: string -> Reply, arrange: seq<Pair> -> seq<Pair>)
    requires Consistent(run)
    ensures Consistent(Batch(run, batch, outcome, arrange))
  {
    var pending := Pending(run.book.processed, batch);
    if pending != [] {
      forall t: Run, x: Pair | x in arrange(pending) && Consistent(t) ensures Consistent(Step(outcome)(t, x)) {
        CompleteConsistent(t, x, outcome(x.word));
      }
      Reorder.FoldPreserves(Step(outcome), Consistent, run, arrange(pending));
    }
  }

  /** process_words keeps a problematic word a processed word, and every result is the
      stored translation of a processed word. */
  lemma {:induction false} ProcessAllConsistent(run: Run, pairs: seq<Pair>, size: nat, outcome: string -> Reply, arrange: seq<Pair> -> seq<Pair>)
    requires size > 0 && Consistent(run)
    ensures Consistent(ProcessAll(run, pairs, size, outcome, arrange))
  {
    forall t: Run, b: seq<Pair> | b in Chunking.Chunks(pairs, size) && Consistent(t)
      ensures Consistent(BatchStep(outcome, arrange)(t, b))
    {
      BatchConsistent(t, b, outcome, arrange);
    }
    Reorder.FoldPreserves(BatchStep(outcome, arrange), Consistent, run, Chunking.Chunks(pairs, size));
  }

  // ---- What gets processed ----

  lemma {:induction false} FoldProcessed(run: Run, order: seq<Pair>, outcome: string -> Reply)
    ensures Reorder.Fold(Step(outcome), run, order).book.processed == run.book.processed + Words(order)
    decreases |order|
  {
    if order != [] {
      CompleteSpec(run, order[0], outcome(order[0].word));
      FoldProcessed(Step(outcome)(run, order[0]), order[1..], outcome);
    }
  }

  lemma {:induction false} BatchProcessed(run: Run, batch: seq<Pair>, outcome: string -> Reply, arrange: seq<Pair> -> seq<Pair>)
    requires Permutes(arrange)
    ensures Batch(run, batch, outcome, arrange).book.processed == run.book.processed + Words(batch)
  {
    var pending := Pending(run.book.processed, batch);
    PendingWords(run.book.processed, batch);
    if pending != [] {
      assert multiset(arrange(pending)) == multiset(pending);
      WordsPermuted(arrange(pending), pending);
      FoldProcessed(run, arrange(pending), outcome);
    }
  }

  /** After process_words every queued word is processed, whatever its outcome, and no
      other word became processed. */
  lemma {:induction false} ProcessAllProcessed(run: Run, pairs: seq<Pair>, size: nat, outcome: string -> Reply, arrange: seq<Pair> -> seq<Pair>)
    requires size > 0 && Permutes(arrange)
    ensures ProcessAll(run, pairs, size, outcome, arrange).book.processed == run.book.processed + Words(pairs)
    decreases |pairs|
  {
    if pairs != [] {
      var m := Chunking.Min(size, |pairs|);
      assert pairs == pairs[..m] + pairs[m..];
      WordsAppend(pairs[..m], pairs[m..]);
      BatchProcessed(run, pairs[..m], outcome, arrange);
      ProcessAllProcessed(Batch(run, pairs[..m], outcome, arrange), pairs[m..], size, outcome, arrange);
    }
  }

  // ---- Snapshots ----

  lemma {:induction false} FoldSaves(run: Run, order: seq<Pair>, outcome: string -> Reply)
    ensures Reorder.Fold(Step(outcome), run, order).saves == run.saves
    decreases |order|
  {
    if order != [] {
      assert Step(outcome)(run, order[0]) == Complete(run, order[0], outcome(order[0].word));
      FoldSaves(Step(outcome)(run, order[0]), order[1..], outcome);
    }
  }

  /** A batch appends one snapshot, of the fields it ends with. */
  lemma {:induction false} BatchSaved(run: Run, batch: seq<Pair>, outcome: string -> Reply, arrange: seq<Pair> -> seq<Pair>)
    ensures var n := Batch(run, batch, outcome, arrange);
      n.saves == run.saves + [Snapshot(n.book, |n.results|)]
  {
    var pending := Pending(run.book.processed, batch);
    if pending != [] { FoldSaves(run, arrange(pending), outcome); }
  }

  /** Exactly one snapshot per batch, so ceil(n / size) in all, appended to the earlier
      ones; when there was a batch the last snapshot holds the final fields and the size
      of the run's results. */
  lemma {:induction false} ProcessAllSaves(run: Run, pairs: seq<Pair>, size: nat, outcome: string -> Reply, arrange: seq<Pair> -> seq<Pair>)
    requires size > 0
    ensures var r := ProcessAll(run, pairs, size, outcome, arrange);
      && |r.saves| == |run.saves| + Chunking.CeilDiv(|pairs|, size)
      && r.saves[..|run.saves|] == run.saves
      && (pairs != [] ==> r.saves[|r.saves| - 1] == Snapshot(r.book, |r.results|))
    decreases |pairs|
  {
    Chunking.ChunksShape(pairs, size);
    if pairs != [] {
      var m := Chunking.Min(size, |pairs|);
      var b := pairs[..m];
      var next := Batch(run, b, outcome, arrange);
      BatchSaved(run, b, outcome, arrange);
      ProcessAllSaves(next, pairs[m..], size, outcome, arrange);
      Chunking.ChunksShape(pairs[m..], size);
      var r := ProcessAll(run, pairs, size, outcome, arrange);
      assert r == ProcessAll(next, pairs[m..], size, outcome, arrange);
      assert r.saves[..|next.saves|] == next.saves;
      assert r.saves[..|run.saves|] == r.saves[..|next.saves|][..|run.saves|];
      if pairs[m..] == [] {
        assert Chunking.Chunks(pairs[m..], size) == [];
      }
    }
  }

  // ---- Outcomes ----

  /** Every word processed in this run (not in `before`) has the status its reply
      decides: a result exactly when the reply succeeded, problematic exactly when it
      did not. */
  ghost predicate Settled(run: Run, before: set<string>, outcome: string -> Reply) {
    && before <= run.book.processed
    && (forall w :: w in run.results <==> (w in run.book.processed && w !in before && Succeeds(outcome(w))))
    && (forall w :: w in run.book.processed && w !in before ==> (w in run.book.problematic <==> !Succeeds(outcome(w))))
  }

  lemma {:induction false} CompleteSettled(run: Run, p: Pair, before: set<string>, outcome: string -> Reply)
    requires Settled(run, before, outcome) && p.word !in before
    ensures Settled(Complete(run, p, outcome(p.word)), before, outcome)
  {
    CompleteSpec(run, p, outcome(p.word));
  }

  lemma {:induction false} BatchSettled(run: Run, batch: seq<Pair>, before: set<string>, outcome: string -> Reply, arrange: seq<Pair> -> seq<Pair>)
    requires Permutes(arrange) && Settled(run, before, outcome)
    ensures Settled(Batch(run, batch, outcome, arrange), before, outcome)
  {
    var pending := Pending(run.book.processed, batch);
    if pending != [] {
      var inv := (t: Run) => Settled(t, before, outcome);
      forall t: Run, x: Pair | x in arrange(pending) && inv(t) ensures inv(Step(outcome)(t, x)) {
        assert x in multiset(pending);
        assert x.word !in run.book.processed;
        CompleteSettled(t, x, before, outcome);
      }
      Reorder.FoldPreserves(Step(outcome), inv, run, arrange(pending));
    }
  }

  /** A run started with no results ends with a result for exactly the queued words that
      were not processed before and whose reply gave a translation; each of those words
      is problematic exactly when its reply failed, so no result is problematic. */
  lemma {:induction false} ProcessAllOutcomes(run: Run, pairs: seq<Pair>, size: nat, outcome: string -> Reply, arrange: seq<Pair> -> seq<Pair>)
    requires size > 0 && Permutes(arrange) && run.results == map[]
    ensures var r := ProcessAll(run, pairs, size, outcome, arrange);
      && (forall w :: w in r.results <==> (w in Words(pairs) && w !in run.book.processed && Succeeds(outcome(w))))
      && (forall w :: w in Words(pairs) && w !in run.book.processed ==> (w in r.book.problematic <==> !Succeeds(outcome(w))))
      && (forall w :: w in r.results ==> w !in r.book.problematic)
  {
    var before := run.book.processed;
    var inv := (t: Run) => Settled(t, before, outcome);
    forall t: Run, b: seq<Pair> | b in Chunking.Chunks(pairs, size) && inv(t)
      ensures inv(BatchStep(outcome, arrange)(t, b))
    {
      BatchSettled(t, b, before, outcome, arrange);
    }
    Reorder.FoldPreserves(BatchStep(outcome, arrange), inv, run, Chunking.Chunks(pairs, size));
    ProcessAllProcessed(run, pairs, size, outcome, arrange);
  }

  /** Words processed before a batch are skipped: nothing about them changes. */
  lemma {:induction false} BatchSkips(run: Run, batch: seq<Pair>, outcome: string -> Reply, arrange: seq<Pair> -> seq<Pair>, w: string)
    requires Permutes(arrange) && w in run.book.processed
    ensures Agrees(Batch(run, batch, outcome, arrange), run, w)
  {
    var pending := Pending(run.book.processed, batch);
    if pending != [] {
      var inv := (t: Run) => Agrees(t, run, w);
      forall t: Run, x: Pair | x in arrange(pending) && inv(t) ensures inv(Step(outcome)(t, x)) {
        assert x in multiset(pending);
        CompleteSpec(t, x, outcome(x.word));
        assert Agrees(Step(outcome)(t, x), t, w);
      }
      Reorder.FoldPreserves(Step(outcome), inv, run, arrange(pending));
    }
  }

  /** A word processed before process_words is never dispatched: its status, its
      translation and its result stay as they were. */
  lemma {:induction false} ProcessAllSkips(run: Run, pairs: seq<Pair>, size: nat, outcome: string -> Reply, arrange: seq<Pair> -> seq<Pair>, w: string)
    requires size > 0 && Permutes(arrange) && w in run.book.processed
    ensures Agrees(ProcessAll(run, pairs, size, outcome, arrange), run, w)
  {
    var inv := (t: Run) => Agrees(t, run, w);
    forall t: Run, b: seq<Pair> | b in Chunking.Chunks(pairs, size) && inv(t)
      ensures inv(BatchStep(outcome, arrange)(t, b))
    {
      BatchSkips(t, b, outcome, arrange, w);
    }
    Reorder.FoldPreserves(BatchStep(outcome, arrange), inv, run, Chunking.Chunks(pairs, size));
  }

  // ---- Completion order ----

  /** Within a batch the completion order does not matter. */
  lemma {:induction false} BatchOrderIrrelevant(run: Run, batch: seq<Pair>, outcome: string -> Reply, arrange1: seq<Pair> -> seq<Pair>, arrange2: seq<Pair> -> seq<Pair>)
    requires Permutes(arrange1) && Permutes(arrange2)
    requires Reorder.DistinctKeys(WordOf, batch)
    ensures Batch(run, batch, outcome, arrange1) == Batch(run, batch, outcome, arrange2)
  {
    var pending := Pending(run.book.processed, batch);
    if pending != [] {
      StepCommutes(outcome);
      PendingDistinct(run.book.processed, batch);
      assert multiset(arrange1(pending)) == multiset(pending);
      assert multiset(arrange2(pending)) == multiset(pending);
      Reorder.PermutationInvariant(Step(outcome), WordOf, run, arrange1(pending), pending);
      Reorder.PermutationInvariant(Step(outcome), WordOf, run, arrange2(pending), pending);
    }
  }

  /** For a queue without repeated words, every completion order of the thread pool
      leads to the same fields, results and snapshots. */
  lemma {:induction false} ProcessAllOrderIrrelevant(run: Run, pairs: seq<Pair>, size: nat, outcome: string -> Reply, arrange1: seq<Pair> -> seq<Pair>, arrange2: seq<Pair> -> seq<Pair>)
    requires size > 0 && Permutes(arrange1) && Permutes(arrange2)
    requires DistinctWords(pairs)
    ensures ProcessAll(run, pairs, size, outcome, arrange1) == ProcessAll(run, pairs, size, outcome, arrange2)
    decreases |pairs|
  {
    if pairs != [] {
      var m := Chunking.Min(size, |pairs|);
      var b, rest := pairs[..m], pairs[m..];
      assert Reorder.DistinctKeys(WordOf, b) by {
        forall i, j | 0 <= i < j < |b| ensures WordOf(b[i]) != WordOf(b[j]) {
          assert b[i] == pairs[i] && b[j] == pairs[j];
        }
      }
      assert DistinctWords(rest) by {
        forall i, j | 0 <= i < j < |rest| ensures rest[i].word != rest[j].word {
          assert rest[i] == pairs[i + m] && rest[j] == pairs[j + m];
        }
      }
      BatchOrderIrrelevant(run, b, outcome, arrange1, arrange2);
      ProcessAllOrderIrrelevant(Batch(run, b, outcome, arrange1), rest, size, outcome, arrange1, arrange2);
    }
  }

  // ---- The queue main builds ----

  /** word_to_flags = {word: flags for word, flags in pairs}: a later pair of a word
      overrides an earlier one. */
  function FlagsOf(pairs: seq<Pair>): (m: map<string, string>)
    ensures m.Keys == Words(pairs)
    ensures forall i :: 0 <= i < |pairs| ==> pairs[i].word in m
    decreases |pairs|
  {
    if pairs == [] then map[]
    else
      var rest := FlagsOf(pairs[1..]);
      if pairs[0].word in rest then rest else rest[pairs[0].word := pairs[0].flags]
  }

  /** The flags word_to_flags holds for a word are those of its last pair. */
  lemma {:induction false} FlagsOfLast(pairs: seq<Pair>, i: nat)
    requires i < |pairs|
    requires forall j :: i < j < |pairs| ==> pairs[j].word != pairs[i].word
    ensures FlagsOf(pairs)[pairs[i].word] == pairs[i].flags
    decreases |pairs|
  {
    var rest := pairs[1..];
    if i == 0 {
      forall j | 0 <= j < |rest| ensures rest[j].word != pairs[0].word {
        assert rest[j] == pairs[j + 1];
      }
      InWords(rest, pairs[0].word);
    } else {
      forall j | i - 1 < j < |rest| ensures rest[j].word != rest[i - 1].word {
        assert rest[j] == pairs[j + 1];
      }
      FlagsOfLast(rest, i - 1);
      assert rest[i - 1] == pairs[i];
    }
  }

  /** problematic_to_retry: the words of the problematic set, in its iteration order
      `listing`, that the word list has, each with its flags there. */
  function RetryPart(listing: seq<string>, flags: map<string, string>): (r: seq<Pair>)
    ensures forall i :: 0 <= i < |r| ==> r[i].word in listing && r[i].word in flags && r[i].flags == flags[r[i].word]
    decreases |listing|
  {
    if listing == [] then []
    else
      var n := |listing| - 1;
      var w := listing[n];
      var init := RetryPart(listing[..n], flags);
      assert forall i :: 0 <= i < |init| ==> init[i].word in listing by {
        forall i | 0 <= i < |init| ensures init[i].word in listing {
          assert init[i].word in listing[..n];
        }
      }
      if w in flags then init + [Pair(w, flags[w])] else init
  }

  /** Keeps a list word that is neither processed nor problematic. */
  function Fresh(processed: set<string>, problematic: set<string>): Pair -> bool {
    (p: Pair) => p.word !in processed && p.word !in problematic
  }

  /** regular_words_to_process: the list pairs whose word is neither processed nor
      problematic, in list order. */
  function Regular(pairs: seq<Pair>, processed: set<string>, problematic: set<string>): seq<Pair> {
    Filter(pairs, Fresh(processed, problematic))
  }

  /** words_to_process: the words to retry first, then the regular ones. */
  function Queue(pairs: seq<Pair>, processed: set<string>, problematic: set<string>, listing: seq<string>): seq<Pair> {
    RetryPart(listing, FlagsOf(pairs)) + Regular(pairs, processed, problematic)
  }

  /** The retry part holds exactly the problematic words of the list. */
  lemma {:induction false} RetryPartWords(listing: seq<string>, flags: map<string, string>)
    ensures Words(RetryPart(listing, flags)) == Order.Elems(listing) * flags.Keys
    decreases |listing|
  {
    if listing != [] {
      var n := |listing| - 1;
      var w := listing[n];
      var init := RetryPart(listing[..n], flags);
      RetryPartWords(listing[..n], flags);
      assert listing == listing[..n] + [w];
      assert Order.Elems(listing) == Order.Elems(listing[..n]) + {w};
      if w in flags {
        WordsAppend(init, [Pair(w, flags[w])]);
        assert Words([Pair(w, flags[w])]) == {w};
      }
    }
  }

  /** No word is listed twice for retry when the set's listing repeats none. */
  lemma {:induction false} RetryPartDistinct(listing: seq<string>, flags: map<string, string>)
    requires forall i, j :: 0 <= i < j < |listing| ==> listing[i] != listing[j]
    ensures DistinctWords(RetryPart(listing, flags))
    decreases |listing|
  {
    if listing != [] {
      var n := |listing| - 1;
      var w := listing[n];
      var prefix := listing[..n];
      var init := RetryPart(prefix, flags);
      assert forall i, j :: 0 <= i < j < |prefix| ==> prefix[i] != prefix[j] by {
        forall i, j | 0 <= i < j < |prefix| ensures prefix[i] != prefix[j] {
          assert prefix[i] == listing[i] && prefix[j] == listing[j];
        }
      }
      RetryPartDistinct(prefix, flags);
      if w in flags {
        RetryPartWords(prefix, flags);
        assert w !in Order.Elems(prefix) by {
          forall k | 0 <= k < |prefix| ensures prefix[k] != w {
            assert prefix[k] == listing[k];
          }
        }
        assert Words([Pair(w, flags[w])]) == {w};
        DistinctAppend(init, [Pair(w, flags[w])]);
      }
    }
  }

  /** The regular part holds exactly the list words that are neither processed nor
      problematic. */
  lemma {:induction false} RegularWords(pairs: seq<Pair>, processed: set<string>, problematic: set<string>)
    ensures Words(Regular(pairs, processed, problematic)) == Words(pairs) - processed - problematic
  {
    var r := Regular(pairs, processed, problematic);
    var keep := Fresh(processed, problematic);
    forall w | w in Words(r) ensures w in Words(pairs) - processed - problematic {
      WordsMember(r, w);
      var i :| 0 <= i < |r| && r[i].word == w;
      assert keep(r[i]);
      var j :| 0 <= j < |pairs| && pairs[j] == r[i];
      WordsMember(pairs, w);
    }
    forall w | w in Words(pairs) - processed - problematic ensures w in Words(r) {
      WordsMember(pairs, w);
      var j :| 0 <= j < |pairs| && pairs[j].word == w;
      assert keep(pairs[j]);
      var i :| 0 <= i < |r| && r[i] == pairs[j];
      WordsMember(r, w);
    }
  }

  /** The queue's words: the problematic list words and the list words that are
      neither processed nor problematic. A word list without repeated words and a
      listing of the set give a queue without repeated words, the retried words with
      the flags of their pair in the list. */
  lemma {:induction false} QueueSpec(pairs: seq<Pair>, processed: set<string>, problematic: set<string>, listing: seq<string>)
    requires Order.Elems(listing) == problematic
    ensures Words(Queue(pairs, processed, problematic, listing))
      == (problematic * Words(pairs)) + (Words(pairs) - processed - problematic)
    ensures DistinctWords(pairs) && (forall i, j :: 0 <= i < j < |listing| ==> listing[i] != listing[j])
      ==> DistinctWords(Queue(pairs, processed, problematic, listing))
    ensures DistinctWords(pairs) ==> forall p :: p in RetryPart(listing, FlagsOf(pairs)) ==> p in pairs
  {
    var retry := RetryPart(listing, FlagsOf(pairs));
    var regular := Regular(pairs, processed, problematic);
    RetryPartWords(listing, FlagsOf(pairs));
    RegularWords(pairs, processed, problematic);
    WordsAppend(retry, regular);
    if DistinctWords(pairs) {
      DistinctWordsKeys(pairs);
      FilterDistinct(pairs, Fresh(processed, problematic));
      DistinctWordsKeys(regular);
      if forall i, j :: 0 <= i < j < |listing| ==> listing[i] != listing[j] {
        RetryPartDistinct(listing, FlagsOf(pairs));
        DistinctAppend(retry, regular);
      }
      forall p | p in retry ensures p in pairs {
        WordsMember(pairs, p.word);
        var i :| 0 <= i < |pairs| && pairs[i].word == p.word;
        FlagsOfLast(pairs, i);
      }
    }
  }

  /** The retry-first part of the queue never reaches process_word: a problematic word
      is processed (Consistent), so process_words skips it and leaves its status and
      translation as they were; only the regular words are dispatched. */
  lemma {:induction false} RetryNeverRuns(run: Run, pairs: seq<Pair>, listing: seq<string>, size: nat, outcome: string -> Reply, arrange: seq<Pair> -> seq<Pair>)
    requires size > 0 && Permutes(arrange)
    requires run.book.problematic <= run.book.processed
    requires Order.Elems(listing) == run.book.problematic
    ensures var b := run.book;
      var r := ProcessAll(run, Queue(pairs, b.processed, b.problematic, listing), size, outcome, arrange);
      && r.book.processed == b.processed + Words(Regular(pairs, b.processed, b.problematic))
      && forall p :: p in RetryPart(listing, FlagsOf(pairs)) ==> Agrees(r, run, p.word)
  {
    var b := run.book;
    var retry := RetryPart(listing, FlagsOf(pairs));
    var regular := Regular(pairs, b.processed, b.problematic);
    var queue := Queue(pairs, b.processed, b.problematic, listing);
    ProcessAllProcessed(run, queue, size, outcome, arrange);
    WordsAppend(retry, regular);
    RetryPartWords(listing, FlagsOf(pairs));
    forall p | p in retry ensures Agrees(ProcessAll(run, queue, size, outcome, arrange), run, p.word) {
      var i :| 0 <= i < |retry| && retry[i] == p;
      assert p.word in Order.Elems(listing);
      ProcessAllSkips(run, queue, size, outcome, arrange, p.word);
    }
  }

  /** The results main rebuilds when the queue is empty: the stored translations of
      list words, with their flags. */
  function Rebuild(translations: map<string, string>, flags: map<string, string>): map<string, Entry> {
    map w | w in translations && w in flags :: Entry(translations[w], flags[w])
  }

  /** The rebuilt results cover exactly the translated list words; for a list without
      repeated words, each has its stored translation and its pair's flags. */
  lemma {:induction false} RebuildSpec(translations: map<string, string>, pairs: seq<Pair>)
    ensures Rebuild(translations, FlagsOf(pairs)).Keys == translations.Keys * Words(pairs)
    ensures DistinctWords(pairs) ==> forall i :: 0 <= i < |pairs| && pairs[i].word in translations ==>
      Rebuild(translations, FlagsOf(pairs))[pairs[i].word] == Entry(translations[pairs[i].word], pairs[i].flags)
  {
    if DistinctWords(pairs) {
      forall i | 0 <= i < |pairs| && pairs[i].word in translations
        ensures Rebuild(translations, FlagsOf(pairs))[pairs[i].word] == Entry(translations[pairs[i].word], pairs[i].flags)
      {
        FlagsOfLast(pairs, i);
      }
    }
  }

  // ---- progress.json ----

  /** progress.json as json.load reads it: each key may be missing. */
  datatype Stored = Stored(
    translations: Option<map<string, string>>,
    processedWords: Option<seq<string>>,
    problematicWords: Option<seq<string>>,
    resultsCount: Option<int>)

  /** save_progress's record; the sets are written as lists in some order. */
  function Written(s: Snapshot, processedOrder: seq<string>, problematicOrder: seq<string>): Stored {
    Stored(Some(s.book.translations), Some(processedOrder), Some(problematicOrder), Some(s.resultsCount))
  }

  /** load_progress: no file keeps the fields; otherwise every field is replaced by the
      stored value, or by an empty one when its key is missing. */
  function Restore(current: Book, file: Option<Stored>): (b: Book)
    ensures file.None? ==> b == current
    ensures file.Some? ==> b.processed == Order.Elems(OrElse(file.value.processedWords, []))
    ensures file.Some? ==> b.problematic == Order.Elems(OrElse(file.value.problematicWords, []))
  {
    match file
    case None => current
    case Some(d) =>
      Book(OrElse(d.translations, map[]), Order.Elems(OrElse(d.processedWords, [])), Order.Elems(OrElse(d.problematicWords, [])))
  }

  /** Loading a saved snapshot gives back the fields it was taken from, whatever the
      listing order of the sets and whatever the fields were before. */
  lemma {:induction false} RestoreWritten(current: Book, s: Snapshot, processedOrder: seq<string>, problematicOrder: seq<string>)
    requires Order.Elems(processedOrder) == s.book.processed
    requires Order.Elems(problematicOrder) == s.book.problematic
    ensures Restore(current, Some(Written(s, processedOrder, problematicOrder))) == s.book
  {
  }

  // ---- Term entries ----

  /** create_yomichan_entry: [term, "", "", "unknown", 0, [structured content], 0, ""]. */
  function CreateEntry(spanish: string, korean: string, flags: string): Json {
    JArr([JStr(spanish), JStr(""), JStr(""), JStr("unknown"), JInt(0),
          JArr([StructuredContent(EntryContent(korean, flags, []))]), JInt(0), JStr("")])
  }

  /** The eight fields in order, ending in sequence 0 and empty term tags. */
  lemma {:induction false} CreateEntryFields(spanish: string, korean: string, flags: string)
    ensures var f := TermFields(CreateEntry(spanish, korean, flags));
      |f| == 8 && f[0] == JStr(spanish) && f[1] == JStr("") && f[2] == JStr("")
      && f[3] == JStr("unknown") && f[4] == JInt(0) && f[6] == JInt(0) && f[7] == JStr("")
  {
  }

  /** The content reads back as the translation, the flags block exactly when flags
      are non-empty, and no examples. */
  lemma {:induction false} CreateEntryContent(spanish: string, korean: string, flags: string)
    ensures var c := ContentBlocks(CreateEntry(spanish, korean, flags));
      && ReadTranslation(c) == Some(korean)
      && Tags(c) == ["div"] + (if flags != "" then ["br", "div"] else [])
      && ReadFlags(c) == flags
      && ReadExamples(c) == []
  {
    EntryBlocks(spanish, korean, flags);
    EntryContentReads(korean, flags, []);
  }

  lemma {:induction false} EntryBlocks(spanish: string, korean: string, flags: string)
    ensures ContentBlocks(CreateEntry(spanish, korean, flags)) == EntryContent(korean, flags, [])
  {
    StructuredContentReads(EntryContent(korean, flags, []));
  }

  // ---- The builder ----

  class Builder {
    var translations: map<string, string>
    var processedWords: set<string>
    var problematicWords: set<string>
    /** The progress.json snapshots written so far, oldest first. */
    var saves: seq<Snapshot>

    function Fields(): Book
      reads this
    {
      Book(translations, processedWords, problematicWords)
    }

    constructor ()
      ensures Fields() == EmptyBook() && saves == []
    {
      translations := map[];
      processedWords, problematicWords := {}, {};
      saves := [];
    }

    method SaveProgress(results: map<string, Entry>)
      modifies this
      ensures saves == old(saves) + [Snapshot(Fields(), |results|)]
      ensures Fields() == old(Fields())
    {
      saves := saves + [Snapshot(Fields(), |results|)];
    }

    method LoadProgress(file: Option<Stored>)
      modifies this
      ensures Fields() == Restore(old(Fields()), file) && saves == old(saves)
    {
      if file.Some? {
        var d := file.value;
        translations := OrElse(d.translations, map[]);
        processedWords := Order.Elems(OrElse(d.processedWords, []));
        problematicWords := Order.Elems(OrElse(d.problematicWords, []));
      }
    }

    /** process_words over `pairs` in batches of `batchSize`, with `outcome` giving each
        word's reply and `arrange` the completion order of each batch. */
    method ProcessWords(pairs: seq<Pair>, batchSize: nat, outcome: string -> Reply, arrange: seq<Pair> -> seq<Pair>)
      returns (results: map<string, Entry>)
      requires batchSize > 0
      modifies this
      ensures Run(Fields(), results, saves) == ProcessAll(Run(old(Fields()), map[], old(saves)), pairs, batchSize, outcome, arrange)
    {
      ghost var goal := ProcessAll(Run(Fields(), map[], saves), pairs, batchSize, outcome, arrange);
      RemainingEnds(Run(Fields(), map[], saves), pairs, batchSize, outcome, arrange);
      results := map[];
      var i := 0;
      while i < |pairs|
        invariant 0 <= i <= |pairs|
        invariant Remaining(Run(Fields(), results, saves), pairs, i, batchSize, outcome, arrange) == goal
      {
        results, i := ProcessNext(pairs, i, batchSize, outcome, arrange, results);
      }
      RemainingEnds(Run(Fields(), results, saves), pairs, batchSize, outcome, arrange);
    }

    /** The batch at position i: the slice pairs[i:i + batch_size], cut at the end of
        the list. */
    method ProcessNext(pairs: seq<Pair>, i: nat, batchSize: nat, outcome: string -> Reply, arrange: seq<Pair> -> seq<Pair>, results0: map<string, Entry>)
      returns (results: map<string, Entry>, next: nat)
      requires batchSize > 0 && i < |pairs|
      modifies this
      ensures i < next <= |pairs|
      ensures Remaining(Run(Fields(), results, saves), pairs, next, batchSize, outcome, arrange)
        == Remaining(Run(old(Fields()), results0, old(saves)), pairs, i, batchSize, outcome, arrange)
    {
      var m := Chunking.Min(batchSize, |pairs| - i);
      var batch := pairs[i..i + m];
      ghost var cur := Run(Fields(), results0, saves);
      results := ProcessBatch(batch, outcome, arrange, results0, cur);
      RemainingNext(cur, Run(Fields(), results, saves), pairs, i, batchSize, outcome, arrange);
      next := i + m;
    }

    /** One batch: the words not processed yet are dispatched, then progress is saved. */
    method ProcessBatch(batch: seq<Pair>, outcome: string -> Reply, arrange: seq<Pair> -> seq<Pair>, results0: map<string, Entry>, ghost cur: Run)
      returns (results: map<string, Entry>)
      requires cur == Run(Fields(), results0, saves)
      modifies this
      ensures Run(Fields(), results, saves) == Batch(cur, batch, outcome, arrange)
    {
      results := results0;
      var done := processedWords;
      var pending := Filter(batch, (p: Pair) => p.word !in done);
      assert pending == Pending(done, batch);
      if pending != [] {
        results := CompleteAll(arrange(pending), outcome, results);
      }
      SaveProgress(results);
    }

    /** The tasks of one batch completing in the order given. */
    method CompleteAll(order: seq<Pair>, outcome: string -> Reply, results0: map<string, Entry>)
      returns (results: map<string, Entry>)
      modifies this
      ensures Run(Fields(), results, saves) == Reorder.Fold(Step(outcome), Run(old(Fields()), results0, old(saves)), order)
    {
      ghost var start := Run(Fields(), results0, saves);
      results := results0;
      var k := 0;
      assert order[0..] == order;
      while k < |order|
        invariant 0 <= k <= |order|
        invariant Reorder.Fold(Step(outcome), Run(Fields(), results, saves), order[k..]) == Reorder.Fold(Step(outcome), start, order)
      {
        var p := order[k];
        Reorder.FoldUnroll(Step(outcome), Run(Fields(), results, saves), order, k);
        results := CompleteOne(p, outcome(p.word), results);
        k := k + 1;
      }
      assert order[|order|..] == [];
    }

    /** One completed task (the body of the as_completed loop). */
    method CompleteOne(p: Pair, reply: Reply, results0: map<string, Entry>) returns (results: map<string, Entry>)
      modifies this
      ensures Run(Fields(), results, saves) == Complete(Run(old(Fields()), results0, old(saves)), p, reply)
    {
      results := results0;
      var translation := ProcessWord(reply);
      if translation.Some? {
        results := results[p.word := Entry(translation.value, p.flags)];
        translations := translations[p.word := translation.value];
        problematicWords := problematicWords - {p.word};
      } else {
        problematicWords := problematicWords + {p.word};
      }
      processedWords := processedWords + {p.word};
    }

    /** save_problematic_words on this class's problematic set: the report itself is
        ProblemReport.Report; each script defines the method on its own class. */
    method SaveProblematicWords() returns (writes: seq<string>)
      ensures |writes| == 3 + |problematicWords| && writes[..3] == ProblemReport.Header()
      ensures exists ws :: (Order.StrictlySorted(ws) && Order.Elems(ws) == problematicWords
        && writes == ProblemReport.Header() + ProblemReport.Rows(ws))
    {
      writes := ProblemReport.Report(problematicWords);
    }

    /** save_yomichan: one entry per result, in the dictionary's order `keys`. */
    method SaveYomichan(results: map<string, Entry>, keys: seq<string>) returns (entries: seq<Json>)
      requires Order.ListsOnce(keys, results.Keys)
      ensures |entries| == |results|
      ensures |entries| == |keys|
      ensures forall k :: 0 <= k < |keys| ==> entries[k] == CreateEntry(keys[k], results[keys[k]].translation, results[keys[k]].flags)
    {
      entries := [];
      for k := 0 to |keys|
        invariant |entries| == k
        invariant forall j :: 0 <= j < k ==> entries[j] == CreateEntry(keys[j], results[keys[j]].translation, results[keys[j]].flags)
      {
        var e := results[keys[k]];
        entries := entries + [CreateEntry(keys[k], e.translation, e.flags)];
      }
      Order.DistinctCount(keys);
      assert |results| == |results.Keys|;
    }

    /** The queue of main, after load_progress and load_word_list: the problematic words
        in the set's iteration order `listing`, kept when the list has them, then the
        regular words. */
    method BuildQueue(pairs: seq<Pair>, listing: seq<string>) returns (queue: seq<Pair>)
      requires Order.Elems(listing) == problematicWords
      ensures queue == Queue(pairs, processedWords, problematicWords, listing)
    {
      var wordToFlags := FlagsOf(pairs);
      var retry: seq<Pair> := [];
      for k := 0 to |listing|
        invariant retry == RetryPart(listing[..k], wordToFlags)
      {
        var w := listing[k];
        assert listing[..k + 1][..k] == listing[..k] && listing[..k + 1][k] == w;
        if w in wordToFlags {
          retry := retry + [Pair(w, wordToFlags[w])];
        }
      }
      assert listing[..|listing|] == listing;
      var done, failed := processedWords, problematicWords;
      var regular := Filter(pairs, (p: Pair) => p.word !in done && p.word !in failed);
      assert regular == Regular(pairs, done, failed);
      queue := retry + regular;
    }

    /** The rest of main: process_words on a non-empty queue, otherwise the stored
        translations of list words as results. */
    method Build(pairs: seq<Pair>, listing: seq<string>, outcome: string -> Reply, arrange: seq<Pair> -> seq<Pair>)
      returns (results: map<string, Entry>)
      requires Order.Elems(listing) == problematicWords
      modifies this
      ensures var queue := Queue(pairs, old(processedWords), old(problematicWords), listing);
        && (queue != [] ==> Run(Fields(), results, saves) == ProcessAll(Run(old(Fields()), map[], old(saves)), queue, BatchSize, outcome, arrange))
        && (queue == [] ==> results == Rebuild(translations, FlagsOf(pairs)) && Fields() == old(Fields()) && saves == old(saves))
    {
      var queue := BuildQueue(pairs, listing);
      if queue != [] {
        results := ProcessWords(queue, BatchSize, outcome, arrange);
      } else {
        var wordToFlags := FlagsOf(pairs);
        results := map w | w in translations && w in wordToFlags :: Entry(translations[w], wordToFlags[w]);
      }
    }
  }
}
