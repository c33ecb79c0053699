# Spanish–Korean Yomitan dictionary builders, modelled in Dafny

TapDictionary builds Spanish-to-Korean dictionaries for the Yomitan (formerly
Yomichan) pop-up dictionary. Each dictionary is a zip of JSON term banks.
This project models the repository's builder scripts:

- **Word-list extractors.** `extract_words.py` turns a Hunspell `.dic` file into
  `word|flags` lines. `extract_words_from_tatoeba.py` collects the sorted set of words
  in the Spanish column of Tatoeba sentence pairs.
- **Threaded builders.** `glosbe_dictionary_builder.py` asks MyMemory for a
  translation and Glosbe for example phrases. `google_translate_dictionary_builder.py`
  asks Google's unofficial translate endpoint. Both:
  - throttle their requests;
  - back off on HTTP 429;
  - work through the word list in batches on a thread pool;
  - keep `processed_words`, `problematic_words` and the translations in a progress
    file they can resume from;
  - write a problem report and a Yomichan term bank.
- **Sequential builder.** `glosbe_dictionary_builder_fixed.py` processes words one
  by one. It uses Glosbe's translation with Google's as the fallback, validates it,
  and also writes a CSV.
- **Converters.** `dict_builder.py` turns a `spanish,korean` CSV into terms.
  `tools/wiktionary_to_yomitan.py` turns a wiktextract JSONL dump into numbered term
  banks of 10000 terms each.
- **Scraper.** `Scraping-Tools/Glosbe/main.py` is a command-line Glosbe scraper. It
  parses its options and walks the word list from a start point. For each word it
  appends a row to `output.csv`: the word, then whichever of the translation, the
  audio URL and the two example sentences are enabled. The page's attributes are
  read but not written.

How the model is laid out:

- **One module per script.** The modules are `GlosbeClient`, `GlosbeBuilder`,
  `GoogleClient`, `GoogleBuilder`, `GlosbeFixed`, `DicExtract`, `Tatoeba`,
  `DictBuilder`, `Wiktionary` and `GlosbeScraper`.
- **Shared modules:**
  - `Text`: Python's `strip`, `split`, `rstrip(chars)`, line reading and joins;
  - `Order`: Python's string order and `sorted` on a set;
  - `Chunking`: the `range(0, n, size)` batch slices;
  - `Reorder`: folds, and why the completion order of a batch does not matter;
  - `Dispatch`: the "not yet processed" batch filter;
  - `WordList`: `load_word_list`;
  - `Yomitan`: JSON values and the structured-content entries;
  - `Throttle`: the rate limiter's release time and back-off;
  - `ProblemReport`: the problematic-words CSV.
- **State.** Objects whose fields the scripts update are classes:
  - the two API clients, with request counters and timestamps;
  - the three builders, with the progress sets and maps;
  - the scraper's module globals.

  Their methods are proved against specification functions over the old state (a
  `Run` record per builder). The properties are lemmas about those functions.
- **Outside effects become parameters:**
  - time is integer milliseconds passed in explicitly;
  - HTTP replies are oracles keyed by word or attempt number;
  - the thread pool's completion order is an `arrange` function that must permute
    its batch;
  - file contents are strings.

## Model

| member | source | states |
|---|---|---|
| Text.LStrip | glosbe_dictionary_builder.py:411 | `lstrip` is no longer than its input and does not start with whitespace |
| Text.LStripSuffix | glosbe_dictionary_builder.py:411 | `lstrip` returns a suffix of its input, and everything it drops is whitespace |
| Text.RStrip | glosbe_dictionary_builder.py:411 | `rstrip` is no longer than its input and does not end with whitespace |
| Text.RStripPrefix | glosbe_dictionary_builder.py:411 | `rstrip` keeps a prefix and drops only trailing whitespace |
| Text.Strip | glosbe_dictionary_builder.py:411 | `strip` gives a trimmed string no longer than its input |
| Text.StripSlice | glosbe_dictionary_builder.py:411 | `strip` returns the contiguous slice that starts after the leading whitespace |
| Text.StripSurround | glosbe_dictionary_builder.py:411 | only whitespace lies outside the slice that `strip` keeps |
| Text.StripUnchanged | glosbe_dictionary_builder.py:416 | a trimmed string is its own strip |
| Text.StripIdempotent | glosbe_dictionary_builder.py:416 | stripping twice is stripping once |
| Text.RStripChars | Scraping-Tools/Glosbe/main.py:171 | `rstrip(chars)` keeps a prefix that does not end in `chars`, and every dropped character is in `chars` |
| Text.IndexOf | glosbe_dictionary_builder.py:415 | the first position of the character, or the length when it is absent |
| Text.SplitFirst | glosbe_dictionary_builder.py:415 | `split(c, 1)` gives two pieces exactly when `c` occurs; the first piece holds no `c`, and piece + `c` + rest is the input |
| Text.Split | extract_words_from_tatoeba.py:20 | `split(c)` gives at least one piece and no piece holds `c` |
| Text.JoinSplit | extract_words_from_tatoeba.py:20 | joining the pieces of `split(c)` with `c` gives the text back |
| Text.SplitJoin | Scraping-Tools/Glosbe/main.py:352-354 | splitting at `c` a join of `c`-free pieces gives the pieces back |
| Text.SplitLines | glosbe_dictionary_builder.py:410 | the lines a text file yields hold no newline |
| Text.SplitLinesJoin | extract_words.py:36 | newline-free lines joined by "\n" read back as the same lines when the last one is not empty |
| Text.TerminatedLines | extract_words_from_tatoeba.py:37-38 | lines each written with a trailing newline read back as the same lines |
| Text.Filter | glosbe_dictionary_builder.py:320 | the comprehension keeps exactly the items that pass, and only items of the input |
| Text.FilterAppend | glosbe_dictionary_builder.py:464 | filtering a concatenation filters each part |
| Text.Take | glosbe_dictionary_builder.py:389 | `xs[:n]` has length `min(n, len(xs))` and is a prefix of `xs` |
| Order.SortedList | extract_words_from_tatoeba.py:33 | `sorted(set)` is strictly increasing and holds exactly the set's members |
| Order.SortedUnique | extract_words_from_tatoeba.py:33 | two strictly sorted lists with the same members are equal, so `sorted` has one possible result |
| Order.SortedCount | extract_words_from_tatoeba.py:33 | a strictly sorted list holds each element once |
| Order.DistinctCount | glosbe_dictionary_builder.py:611 | a listing of a dictionary's keys without repeats has one item per key |
| Order.LessTotal | extract_words_from_tatoeba.py:33 | Python's string order is total on distinct strings |
| Order.LessTransitive | extract_words_from_tatoeba.py:33 | Python's string order is transitive |
| Chunking.FlattenChunks | glosbe_dictionary_builder.py:457-458 | the batches, put back together, are the whole list in order |
| Chunking.ChunksShape | glosbe_dictionary_builder.py:457-460 | there are ceil(n / size) batches; each holds 1 to size items, and all but the last hold exactly size |
| Chunking.ChunkAt | glosbe_dictionary_builder.py:457-458 | batch k is the slice that starts at k * size, cut at the end of the list |
| Chunking.ChunkCount | tools/wiktionary_to_yomitan.py:156-158 | batch k exists exactly when k * size falls inside the list |
| Chunking.ChunksNext | glosbe_dictionary_builder.py:457-458 | the batches from position i on are the batch at i followed by the batches after it |
| Reorder.PermutationInvariant | google_translate_dictionary_builder.py:245-262 | folding two orderings of the same items with distinct keys gives the same state, when steps on different keys commute |
| Reorder.MoveToFront | google_translate_dictionary_builder.py:245-262 | an item can be applied first when the items before it have other keys |
| Reorder.FoldPreserves | glosbe_dictionary_builder.py:476-488 | a property that every step keeps holds after the fold |
| Throttle.Release | google_translate_dictionary_builder.py:55-62 | a request leaves at or after it is asked for, at least `interval` after the previous one; it waits exactly when less than `interval` has passed |
| Throttle.ReleaseEarliest | google_translate_dictionary_builder.py:58-62 | no admissible moment is earlier than the one the throttle picks |
| Throttle.Pow2 | glosbe_dictionary_builder.py:262 | the back-off factor `2 ** attempt` is at least 1 |
| WordList.ParseLineSpec | glosbe_dictionary_builder.py:411-419 | a line gives no pair exactly when it is blank or a `#` comment; the word holds no separator; word and flags are trimmed; a line without a separator is all word with empty flags |
| WordList.ParseFormatted | glosbe_dictionary_builder.py:413-416 | a trimmed word joined to trimmed flags by the separator parses back to the same pair |
| WordList.ParseLines | glosbe_dictionary_builder.py:410-419 | the parsed pairs are at most as many as the lines |
| WordList.DedupWords | glosbe_dictionary_builder.py:421-427 | the unique list has exactly the words seen in the file |
| WordList.DedupDistinct | glosbe_dictionary_builder.py:421-427 | no word occurs twice in the unique list |
| WordList.DedupFirst | glosbe_dictionary_builder.py:421-427 | the pair kept for each word is its first pair in the file |
| WordList.DedupOrder | glosbe_dictionary_builder.py:421-427 | the kept pairs are in the order in which their words first occur |
| WordList.LoadWordList | glosbe_dictionary_builder.py:405-430 | the loading loop returns the parsed pairs with the later repeats of a word dropped |
| Yomitan.Get | glosbe_dictionary_builder_fixed.py:61 | a key lookup finds nothing exactly when no field has the key; otherwise it gives a value bound to the key |
| Yomitan.ListItems | glosbe_dictionary_builder.py:580-585 | one `li` node per example, in order, holding its text |
| Yomitan.ListTextsItems | glosbe_dictionary_builder.py:580-585 | the `li` items read back as the listed texts |
| Yomitan.TranslationBlockReads | glosbe_dictionary_builder.py:544-552 | the translation block is a div whose `strong` text is the Korean translation |
| Yomitan.FlagsBlocksRead | glosbe_dictionary_builder.py:555-565 | the flags part is a `br` and a div that reads back as the flags, and it hides nothing after it |
| Yomitan.ExampleBlocksRead | glosbe_dictionary_builder.py:568-591 | the examples part is `br`, a heading div and a `ul` that reads back as the first three examples |
| Yomitan.EntryContentReads | glosbe_dictionary_builder.py:541-591 | an entry's content reads back as the translation first; the flags exactly when they are non-empty; the examples block exactly when there are examples, with at most the first three in order |
| ProblemReport.Rows | google_translate_dictionary_builder.py:307-308 | one `word,` line per word, in the given order |
| ProblemReport.Report | google_translate_dictionary_builder.py:301-310 | the report is the three header lines, then the set's words written once each in sorted order |
| ProblemReport.ReportDetermined | google_translate_dictionary_builder.py:307-308 | two sorted listings of the same set write the same report |
| Dispatch.PendingWords | glosbe_dictionary_builder.py:464 | a batch dispatches exactly its words that are not yet processed |
| Dispatch.PendingDistinct | glosbe_dictionary_builder.py:464 | the dispatched pairs of a batch without repeated words have no repeated words |
| Dispatch.WordsPermuted | glosbe_dictionary_builder.py:476 | any completion order of the futures holds the same words |
| Dispatch.FoldChunksNext | glosbe_dictionary_builder.py:457-458 | processing the batches from position i is processing the batch at i, then the rest |
| Dispatch.DistinctAppend | google_translate_dictionary_builder.py:433 | two word lists with no repeats and no common word concatenate without repeats |
| GlosbeClient.Ladder | glosbe_dictionary_builder.py:261-264 | the waits of the first n back-off attempts are the capped `60 * 2 ** a` delays, in order |
| GlosbeClient.FirstClear | glosbe_dictionary_builder.py:261-273 | this is the first back-off probe that finds the limit lifted: every earlier probe failed, and it succeeded unless all three failed |
| GlosbeClient.HandleWaits | glosbe_dictionary_builder.py:258-273 | a 429 waits 60, 120 and 240 seconds in order, stopping at the first probe that succeeds; no wait exceeds the 900-second cap |
| GlosbeClient.HandleVpn | glosbe_dictionary_builder.py:276-280 | a VPN switch is tried exactly when a VPN client is available, this is at least the second hit, and every probe failed |
| GlosbeClient.HandleHits | glosbe_dictionary_builder.py:254-287 | the hit counter resets to 0 exactly when no probe succeeded; otherwise it keeps the new hit |
| GlosbeClient.Consumed | glosbe_dictionary_builder.py:305-311 | the request loop sends requests up to and including the first reply that is not a 429 |
| GlosbeClient.SettleSpec | glosbe_dictionary_builder.py:299-313 | each request passes the throttle once, and the loop settles on the body of the first reply that is not a 429, when that reply is an answer |
| GlosbeClient.FirstMax | glosbe_dictionary_builder.py:330-335 | `max(key=...)` picks the first match whose key no other match exceeds |
| GlosbeClient.BestTranslationSpec | glosbe_dictionary_builder.py:316-344 | there is a translation exactly when some match is non-blank; it is the stripped text of an eligible match with the greatest (match, quality) |
| GlosbeClient.KeptPhrasesClean | glosbe_dictionary_builder.py:382-386 | every kept phrase is non-blank, trimmed and not the query word |
| GlosbeClient.Origin | glosbe_dictionary_builder.py:382-386 | every kept phrase is the stripped phrase of an entry that the filter accepts |
| GlosbeClient.KeptPhrasesComplete | glosbe_dictionary_builder.py:382-386 | every entry that the filter accepts contributes its phrase |
| GlosbeClient.FilterPhrases | glosbe_dictionary_builder.py:381-386 | the phrase loop collects exactly the kept phrases, in order |
| GlosbeClient.SimilarPhrases | glosbe_dictionary_builder.py:389 | `phrases[:5]`: at most five kept phrases, a prefix of them, and all of them when there are fewer than five |
| GlosbeClient.Client.constructor | glosbe_dictionary_builder.py:43-53 | the counters start at zero, with a one-second interval |
| GlosbeClient.Client.RateLimit | glosbe_dictionary_builder.py:55-65 | `_rate_limit` sleeps until the throttle's release time, then stamps and counts the request |
| GlosbeClient.Client.HandleRateLimit | glosbe_dictionary_builder.py:252-287 | `_handle_rate_limit` always reports success, and its waits, VPN attempt and hit counter are those of the recovery function |
| GlosbeClient.Client.GetTranslation | glosbe_dictionary_builder.py:289-348 | `get_translation` leaves the counters as the request loop does and returns the best translation of the settled reply |
| GlosbeClient.Client.GetSimilarPhrases | glosbe_dictionary_builder.py:350-393 | `get_similar_phrases` returns the first five kept phrases of the settled reply, or none when the request failed |
| GlosbeBuilder.Validate | glosbe_dictionary_builder.py:445-451 | a missing or blank translation is none; any other is returned stripped and non-empty |
| GlosbeBuilder.RemainingNext | glosbe_dictionary_builder.py:457-458 | processing from position i is the batch at i, then processing from the next position |
| GlosbeBuilder.RemainingEnds | glosbe_dictionary_builder.py:453-497 | processing from 0 is the whole of `process_words`; from the end it changes nothing |
| GlosbeBuilder.CompleteSpec | glosbe_dictionary_builder.py:476-488 | a completed task marks its word processed, adds it to the problematic set exactly when it failed, stores a result only on success, and touches no other word |
| GlosbeBuilder.StepCommutes | glosbe_dictionary_builder.py:476-488 | completions of different words commute |
| GlosbeBuilder.CompleteCommutes | glosbe_dictionary_builder.py:476-488 | the completions of two different words can be swapped |
| GlosbeBuilder.CompleteConsistent | glosbe_dictionary_builder.py:476-488 | one completion keeps the problematic words processed and the results stored |
| GlosbeBuilder.BatchConsistent | glosbe_dictionary_builder.py:463-488 | one batch keeps the invariant |
| GlosbeBuilder.ProcessAllConsistent | glosbe_dictionary_builder.py:453-497 | `process_words` keeps every problematic word processed and every result stored in the translations and examples |
| GlosbeBuilder.ProblematicGrows | glosbe_dictionary_builder.py:445-488 | the problematic set only grows; a later success does not clear it |
| GlosbeBuilder.FoldProcessed | glosbe_dictionary_builder.py:488 | completing a sequence of tasks marks exactly their words processed |
| GlosbeBuilder.BatchProcessed | glosbe_dictionary_builder.py:463-488 | a batch adds exactly its words to the processed set |
| GlosbeBuilder.ProcessAllProcessed | glosbe_dictionary_builder.py:453-497 | afterwards every queued word is processed, whatever its outcome, and no other word became processed |
| GlosbeBuilder.FoldSaves | glosbe_dictionary_builder.py:476-488 | completions write no progress file |
| GlosbeBuilder.ProcessAllSaves | glosbe_dictionary_builder.py:490-507 | one progress snapshot per batch, ceil(n / size) in all; the last holds the final fields and the number of results |
| GlosbeBuilder.BatchResults | glosbe_dictionary_builder.py:479-483 | a batch keeps the results exactly those of the successful words processed in this run |
| GlosbeBuilder.ProcessAllResults | glosbe_dictionary_builder.py:453-497 | a run ends with a result for exactly the queued words that were new and whose task gave a valid translation |
| GlosbeBuilder.BatchSkips | glosbe_dictionary_builder.py:464 | a batch leaves a previously processed word untouched |
| GlosbeBuilder.BatchOrderIrrelevant | glosbe_dictionary_builder.py:468-488 | within a batch of distinct words the completion order does not matter |
| GlosbeBuilder.ProcessAllOrderIrrelevant | glosbe_dictionary_builder.py:453-497 | for a queue without repeated words, every thread-pool completion order gives the same fields, results and snapshots |
| GlosbeBuilder.Restore | glosbe_dictionary_builder.py:514-525 | without a progress file the fields are kept; otherwise each is replaced by the stored value, or by an empty one when its key is missing |
| GlosbeBuilder.RestoreWritten | glosbe_dictionary_builder.py:499-525 | loading a saved snapshot restores the fields it was taken from, whatever the listing order of the sets and the fields before |
| GlosbeBuilder.CreateEntrySpec | glosbe_dictionary_builder.py:538-605 | the term has the six fields in order and its content is the assembled translation/flags/examples list |
| GlosbeBuilder.Builder.constructor | glosbe_dictionary_builder.py:398-403 | the builder starts with empty progress and no snapshots |
| GlosbeBuilder.Builder.ProcessWord | glosbe_dictionary_builder.py:435-451 | `process_word` returns the validated translation and the examples, and marks the word problematic exactly when there is no translation |
| GlosbeBuilder.Builder.SaveProgress | glosbe_dictionary_builder.py:499-512 | `save_progress` appends a snapshot of the fields and the result count and changes nothing else |
| GlosbeBuilder.Builder.LoadProgress | glosbe_dictionary_builder.py:514-525 | `load_progress` sets the fields to what Restore gives |
| GlosbeBuilder.Builder.ProcessWords | glosbe_dictionary_builder.py:453-497 | `process_words` leaves the fields, results and snapshots that the batch-by-batch specification gives |
| GlosbeBuilder.Builder.ProcessNext | glosbe_dictionary_builder.py:457-495 | one iteration of the batch loop advances the position and leaves the same remaining work |
| GlosbeBuilder.Builder.ProcessBatch | glosbe_dictionary_builder.py:463-491 | a batch dispatches its unprocessed words, completes them in the pool's order and saves progress |
| GlosbeBuilder.Builder.CompleteAll | glosbe_dictionary_builder.py:476-488 | the `as_completed` loop is the fold of one completion per finished task |
| GlosbeBuilder.Builder.CompleteOne | glosbe_dictionary_builder.py:477-488 | one finished task updates the state as the completion specification says |
| GlosbeBuilder.Builder.SaveProblematicWords | glosbe_dictionary_builder.py:527-536 | the report is the header, then the problematic words once each in sorted order |
| GlosbeBuilder.Builder.SaveYomichan | glosbe_dictionary_builder.py:607-618 | given the dictionary's keys listed once each, there are exactly as many terms as results, term k built from the k-th key's translation, flags and examples |
| GoogleClient.FirstText | google_translate_dictionary_builder.py:99-106 | `data[0][0][0]` is returned only for a truthy list or string reply; a failed test or an index error gives none |
| GoogleClient.FirstTextOfReply | google_translate_dictionary_builder.py:99-103 | the usual nested reply gives its translation |
| GoogleClient.FirstTextRejects | google_translate_dictionary_builder.py:100-116 | an empty list, an empty first element and an object give no translation |
| GoogleClient.RetrySpec | google_translate_dictionary_builder.py:71-118 | at most `max_retries` attempts, and at least one; every attempt but the last was a 429 or a request exception, a body that is not JSON included (requests 2.27 and later raise a RequestException for it); only a parsed body ends the loop before the last attempt; the result is the checked value of the last reply |
| GoogleClient.RetryPauses | google_translate_dictionary_builder.py:86-112 | with three attempts each pause is one second or a back-off of 2, 4 or 8 seconds, at most one per attempt |
| GoogleClient.RetryStep | google_translate_dictionary_builder.py:86-112 | a 429 adds a back-off pause, and a request exception or a body that is not JSON adds a one-second pause, before the next attempt |
| GoogleClient.RetryAfterUnparsable | google_translate_dictionary_builder.py:96-112 | a body that is not JSON is retried after one second, and the next parsed reply gives the result |
| GoogleClient.Client.constructor | google_translate_dictionary_builder.py:42-50 | the counters start at zero with the configured interval |
| GoogleClient.Client.RateLimit | google_translate_dictionary_builder.py:52-67 | `_rate_limit` sleeps until the throttle's release time, then stamps and counts the request |
| GoogleClient.Client.GetTranslation | google_translate_dictionary_builder.py:69-118 | `get_translation` makes the attempts, pauses and returns what the retry specification gives, and counts each request |
| GoogleBuilder.ProcessWord | google_translate_dictionary_builder.py:206-220 | a translation exists exactly when the reply is a string that is not blank, and it is that string stripped |
| GoogleBuilder.RemainingNext | google_translate_dictionary_builder.py:226-227 | processing from position i is the batch at i, then processing from the next position |
| GoogleBuilder.RemainingEnds | google_translate_dictionary_builder.py:222-271 | processing from 0 is the whole of `process_words`; from the end it changes nothing |
| GoogleBuilder.CompleteSpec | google_translate_dictionary_builder.py:247-262 | a completion marks its word processed; on success it removes the word from the problematic set and stores the translation; on failure it adds the word; it touches no other word |
| GoogleBuilder.CompleteCommutes | google_translate_dictionary_builder.py:245-262 | the completions of two different words can be swapped |
| GoogleBuilder.StepCommutes | google_translate_dictionary_builder.py:245-262 | completions of different words commute |
| GoogleBuilder.CompleteConsistent | google_translate_dictionary_builder.py:247-262 | one completion keeps problematic words processed and results stored |
| GoogleBuilder.BatchConsistent | google_translate_dictionary_builder.py:233-262 | one batch keeps the invariant |
| GoogleBuilder.ProcessAllConsistent | google_translate_dictionary_builder.py:222-271 | `process_words` keeps every problematic word processed and every result the stored translation of a processed word |
| GoogleBuilder.FoldProcessed | google_translate_dictionary_builder.py:262 | completing a sequence of tasks marks exactly their words processed |
| GoogleBuilder.BatchProcessed | google_translate_dictionary_builder.py:233-262 | a batch adds exactly its words to the processed set |
| GoogleBuilder.ProcessAllProcessed | google_translate_dictionary_builder.py:222-271 | afterwards every queued word is processed and no other word became processed |
| GoogleBuilder.FoldSaves | google_translate_dictionary_builder.py:245-262 | completions write no progress file |
| GoogleBuilder.ProcessAllSaves | google_translate_dictionary_builder.py:264-265 | one progress snapshot per batch, ceil(n / size) in all; the last holds the final fields and the number of results |
| GoogleBuilder.CompleteSettled | google_translate_dictionary_builder.py:247-262 | completing a new word keeps the results and statuses of this run's words exact |
| GoogleBuilder.BatchSettled | google_translate_dictionary_builder.py:233-262 | a batch keeps the results and statuses of this run's words exact |
| GoogleBuilder.ProcessAllOutcomes | google_translate_dictionary_builder.py:222-271 | results are exactly the new queued words whose reply translated; a new word is problematic exactly when its reply failed; no result is problematic |
| GoogleBuilder.BatchSkips | google_translate_dictionary_builder.py:233 | a batch leaves a previously processed word untouched |
| GoogleBuilder.ProcessAllSkips | google_translate_dictionary_builder.py:233 | a word processed before the run keeps its status, translation and result |
| GoogleBuilder.BatchOrderIrrelevant | google_translate_dictionary_builder.py:237-262 | within a batch of distinct words the completion order does not matter |
| GoogleBuilder.ProcessAllOrderIrrelevant | google_translate_dictionary_builder.py:222-271 | for a queue without repeated words, every completion order gives the same fields, results and snapshots |
| GoogleBuilder.FlagsOf | google_translate_dictionary_builder.py:418 | the word-to-flags dictionary has exactly the list's words |
| GoogleBuilder.FlagsOfLast | google_translate_dictionary_builder.py:418 | the flags kept for a word are those of its last pair |
| GoogleBuilder.RetryPart | google_translate_dictionary_builder.py:421-424 | each retried pair is a problematic word the list has, with its flags from the list |
| GoogleBuilder.RetryPartWords | google_translate_dictionary_builder.py:421-424 | the retry part holds exactly the problematic words of the list |
| GoogleBuilder.RetryPartDistinct | google_translate_dictionary_builder.py:421-424 | no word is queued twice for retry |
| GoogleBuilder.RegularWords | google_translate_dictionary_builder.py:427-430 | the regular part holds exactly the list words that are neither processed nor problematic |
| GoogleBuilder.QueueSpec | google_translate_dictionary_builder.py:418-433 | the queue's words are the problematic list words plus the untouched list words; with no repeats in the list the queue has none |
| GoogleBuilder.RetryNeverRuns | google_translate_dictionary_builder.py:233-262 | the retry-first queue never re-runs a problematic word: it is already processed, so `process_words` skips it and only the regular words become processed |
| GoogleBuilder.RebuildSpec | google_translate_dictionary_builder.py:444-445 | with an empty queue the results are the stored translations of the list words, each with its pair's flags |
| GoogleBuilder.Restore | google_translate_dictionary_builder.py:288-299 | without a progress file the fields are kept; otherwise each is the stored value, or empty when its key is missing |
| GoogleBuilder.RestoreWritten | google_translate_dictionary_builder.py:273-299 | loading a saved snapshot restores the fields it was taken from |
| GoogleBuilder.CreateEntryFields | google_translate_dictionary_builder.py:368-382 | the term has the eight fields in order, with sequence 0 and empty term tags |
| GoogleBuilder.CreateEntryContent | google_translate_dictionary_builder.py:312-382 | the content reads back as the translation, then the flags exactly when they are non-empty, and no examples |
| GoogleBuilder.EntryBlocks | google_translate_dictionary_builder.py:315-339 | the content list is the shared translation/flags layout with no examples |
| GoogleBuilder.Builder.constructor | google_translate_dictionary_builder.py:169-174 | the builder starts with empty progress and no snapshots |
| GoogleBuilder.Builder.SaveProgress | google_translate_dictionary_builder.py:273-286 | `save_progress` appends a snapshot of the fields and the result count |
| GoogleBuilder.Builder.LoadProgress | google_translate_dictionary_builder.py:288-299 | `load_progress` sets the fields to what Restore gives |
| GoogleBuilder.Builder.ProcessWords | google_translate_dictionary_builder.py:222-271 | `process_words` leaves the state that the batch-by-batch specification gives |
| GoogleBuilder.Builder.ProcessNext | google_translate_dictionary_builder.py:226-269 | one iteration of the batch loop advances the position and leaves the same remaining work |
| GoogleBuilder.Builder.ProcessBatch | google_translate_dictionary_builder.py:232-265 | a batch dispatches its unprocessed words, completes them in the pool's order and saves progress |
| GoogleBuilder.Builder.CompleteAll | google_translate_dictionary_builder.py:245-262 | the `as_completed` loop is the fold of one completion per finished task |
| GoogleBuilder.Builder.CompleteOne | google_translate_dictionary_builder.py:246-262 | one finished task updates the state as the completion specification says |
| GoogleBuilder.Builder.SaveProblematicWords | google_translate_dictionary_builder.py:301-310 | the report is the header, then the problematic words once each in sorted order |
| GoogleBuilder.Builder.SaveYomichan | google_translate_dictionary_builder.py:384-394 | given the dictionary's keys listed once each, there are exactly as many terms as results, term k built from the k-th key's translation and flags |
| GoogleBuilder.Builder.BuildQueue | google_translate_dictionary_builder.py:417-433 | the queue is the problematic words the list has, in the set's iteration order, then the regular words |
| GoogleBuilder.Builder.Build | google_translate_dictionary_builder.py:440-445 | a non-empty queue goes through `process_words`; an empty one rebuilds the results from the stored translations and changes nothing |
| GlosbeFixed.GetTranslation | glosbe_dictionary_builder_fixed.py:49-72 | the `translation` field, stripped, when it is a non-blank string; otherwise none |
| GlosbeFixed.GetTranslationCases | glosbe_dictionary_builder_fixed.py:60-68 | an object reply gives its translation; a missing key, a failed request and a non-object body give none |
| GlosbeFixed.GetGoogleTranslation | glosbe_dictionary_builder_fixed.py:108-148 | a non-empty list whose first element is a non-blank string gives that string stripped; anything else gives none |
| GlosbeFixed.GoogleFirstElement | glosbe_dictionary_builder_fixed.py:136-142 | the first string of the list is taken and the rest ignored |
| GlosbeFixed.Examples | glosbe_dictionary_builder_fixed.py:74-106 | at most five kept phrases, a prefix of them, and none when the request failed |
| GlosbeFixed.GetSimilarPhrases | glosbe_dictionary_builder_fixed.py:93-102 | the phrase loop returns what Examples gives |
| GlosbeFixed.Validate | glosbe_dictionary_builder_fixed.py:187-193 | a translation shorter than two characters once stripped is rejected; one that passes is returned stripped |
| GlosbeFixed.TranslationSpec | glosbe_dictionary_builder_fixed.py:176-193 | Glosbe's translation wins when it has at least two characters; Google is asked only when Glosbe has none; a one-character Glosbe translation makes the word problematic |
| GlosbeFixed.RemainingNext | glosbe_dictionary_builder_fixed.py:199-200 | processing from position i is the batch at i, then processing from the next position |
| GlosbeFixed.RemainingEnds | glosbe_dictionary_builder_fixed.py:199-221 | processing from 0 is the whole run; from the end it changes nothing |
| GlosbeFixed.VisitAccounted | glosbe_dictionary_builder_fixed.py:205-215 | visiting one word keeps the results and problematic words accounted for |
| GlosbeFixed.BatchAccounted | glosbe_dictionary_builder_fixed.py:205-221 | a batch keeps them accounted for |
| GlosbeFixed.ProcessAllAccounted | glosbe_dictionary_builder_fixed.py:195-223 | results are exactly the processed words that got a translation, with that translation and their examples; the others become problematic and no further word does |
| GlosbeFixed.FoldProcessed | glosbe_dictionary_builder_fixed.py:205-215 | a batch marks exactly its words processed and writes no snapshot until its end |
| GlosbeFixed.ProcessAllProcessed | glosbe_dictionary_builder_fixed.py:195-223 | after the run every word of the list is processed, and no other |
| GlosbeFixed.FoldSkips | glosbe_dictionary_builder_fixed.py:206-207 | a word processed before a batch keeps its status, translation, examples and result |
| GlosbeFixed.ProcessAllSaves | glosbe_dictionary_builder_fixed.py:220-233 | one snapshot per batch, ceil(n / size) in all; the last holds the final fields and the result count |
| GlosbeFixed.LoadWordList | glosbe_dictionary_builder_fixed.py:160-167 | each distinct stripped non-blank line once, in no fixed order, with no comment or flags handling |
| GlosbeFixed.ListedStep | glosbe_dictionary_builder_fixed.py:164 | one more line lists its stripped text when it is not blank |
| GlosbeFixed.Listing | glosbe_dictionary_builder_fixed.py:165 | `list(set)` holds each member once |
| GlosbeFixed.CreateEntrySpec | glosbe_dictionary_builder_fixed.py:264-318 | six fields in order; the content starts with the translation, shows no flags, and has the examples block exactly when there are examples, with at most the first three |
| GlosbeFixed.ExamplesCellSplit | glosbe_dictionary_builder_fixed.py:340 | the CSV examples cell, split at ';', gives the examples back once the space after each ';' is dropped |
| GlosbeFixed.Builder.constructor | glosbe_dictionary_builder_fixed.py:153-158 | the builder starts with empty progress and no snapshots |
| GlosbeFixed.Builder.ProcessWord | glosbe_dictionary_builder_fixed.py:172-193 | `process_word` returns the chosen translation and the examples, says whether Google was asked, and marks the word problematic exactly when there is no translation |
| GlosbeFixed.Builder.SaveProgress | glosbe_dictionary_builder_fixed.py:225-238 | `save_progress` appends a snapshot of the fields and the result count |
| GlosbeFixed.Builder.LoadProgress | glosbe_dictionary_builder_fixed.py:240-251 | `load_progress` sets the fields to what Restore gives |
| GlosbeFixed.Builder.ProcessWords | glosbe_dictionary_builder_fixed.py:195-223 | `process_words` leaves the state that the batch-by-batch specification gives |
| GlosbeFixed.Builder.ProcessNext | glosbe_dictionary_builder_fixed.py:199-221 | one iteration of the batch loop advances the position and leaves the same remaining work |
| GlosbeFixed.Builder.ProcessBatch | glosbe_dictionary_builder_fixed.py:205-221 | a batch visits its words in order, then saves progress |
| GlosbeFixed.Builder.VisitWord | glosbe_dictionary_builder_fixed.py:206-218 | the inner loop's body updates the state as Visit says |
| GlosbeFixed.Builder.SaveProblematicWords | glosbe_dictionary_builder_fixed.py:253-262 | the report is the header, then the problematic words once each in sorted order |
| GlosbeFixed.Builder.SaveYomichan | glosbe_dictionary_builder_fixed.py:320-331 | given the dictionary's keys listed once each, there are exactly as many terms as results, term k built from the k-th key's translation and examples |
| GlosbeFixed.Builder.SaveCsv | glosbe_dictionary_builder_fixed.py:333-343 | given the dictionary's keys listed once each, the CSV is the header and then exactly one row per result, row k holding the k-th key's word, translation and joined examples |
| DicExtract.ExtractSpanishWords | extract_words.py:10-21 | the loop returns the pairs of the lines after the first, in order, with duplicates kept |
| DicExtract.FirstLineDropped | extract_words.py:11 | the first line, the entry count, never contributes |
| DicExtract.FlagLines | extract_words.py:28-29 | one line per pair, the word and its flags joined by a vertical bar, in order |
| DicExtract.WriteFlagsFile | extract_words.py:27-29 | the writing loop produces those lines, each followed by a newline |
| DicExtract.WordSeq | extract_words.py:34 | the words of the pairs, in order |
| DicExtract.ParsedWellFormed | extract_words.py:13-21 | a pair parsed from a line has trimmed parts, no '/' in the word, no newline, and does not start a comment |
| DicExtract.ExtractedWellFormed | extract_words.py:13-21 | every extracted pair is well formed |
| DicExtract.FlagLinesParse | extract_words.py:29 | the written lines, parsed at the vertical bar, give back the same pairs |
| DicExtract.FlagLinesFree | extract_words.py:29 | the written lines hold no newline |
| DicExtract.ReadBack | extract_words.py:27-29 | the written flags file, read by the builders' word-list loader, gives back the extracted pairs, with later repeats of a word dropped |
| DicExtract.WordsOnlyLines | extract_words.py:34-36 | the words-only file lists the words one per line, when the last word is not empty |
| Tatoeba.PerLine | extract_words_from_tatoeba.py:14-30 | the words each line contributes, line by line |
| Tatoeba.ExtractWords | extract_words_from_tatoeba.py:9-43 | the returned list is strictly sorted and holds exactly the collected words; the text written is those words, one per line |
| Tatoeba.WriteWords | extract_words_from_tatoeba.py:36-38 | the text written is every word of the list in order, each followed by a newline |
| Tatoeba.UnionMembers | extract_words_from_tatoeba.py:30 | a word is in the union exactly when some line's words hold it |
| Tatoeba.CollectedMembers | extract_words_from_tatoeba.py:11-30 | a word is collected exactly when some line contributes it |
| Tatoeba.LineIgnored | extract_words_from_tatoeba.py:15-21 | a blank line, or one with fewer than two fields, adds no word |
| Tatoeba.OutputSpec | extract_words_from_tatoeba.py:33-43 | the output is the only sorted listing of the words, holds each once, and reads back as that list when no word holds a newline |
| DictBuilder.CreateEntrySpec | dict_builder.py:21-44 | six fields in order with rule "unknown"; the only content is a div holding the Korean text; the score defaults to 0 |
| DictBuilder.CsvToYomichan | dict_builder.py:46-63 | the row loop returns one entry per usable row, and reports their number |
| DictBuilder.EntriesSpec | dict_builder.py:52-57 | entry i is built from the i-th usable row's two stripped cells, in row order |
| DictBuilder.ExtraCellsIgnored | dict_builder.py:53-54 | cells after the second play no part |
| Wiktionary.ExtractKoreanTranslations | tools/wiktionary_to_yomitan.py:18-45 | the two loops return what the two-pass specification gives |
| Wiktionary.AddSenseTranslations | tools/wiktionary_to_yomitan.py:39-43 | one sense's loop appends its new Korean texts |
| Wiktionary.OfferedMembers | tools/wiktionary_to_yomitan.py:27-33 | the first pass offers exactly the non-empty Korean texts |
| Wiktionary.SenseOfferedMembers | tools/wiktionary_to_yomitan.py:36-43 | the senses offer exactly their non-empty Korean texts |
| Wiktionary.AddAllSpec | tools/wiktionary_to_yomitan.py:39-43 | the second pass keeps what it had, appends only texts not yet present, and ends holding every offered text |
| Wiktionary.AddSensesSpec | tools/wiktionary_to_yomitan.py:36-43 | the same over all senses |
| Wiktionary.KoreanTranslationsSpec | tools/wiktionary_to_yomitan.py:18-45 | the result starts with the top-level Korean texts, with repeats; after that each text is new; a text is present exactly when some translation offers it |
| Wiktionary.PartOfSpeech | tools/wiktionary_to_yomitan.py:48-58 | the entry's pos, else the first sense's pos, else empty |
| Wiktionary.Strings | tools/wiktionary_to_yomitan.py:118 | the translations as JSON strings, in order |
| Wiktionary.BuildTermBank | tools/wiktionary_to_yomitan.py:88-123 | the conversion loop returns what the term-bank specification gives |
| Wiktionary.TermBankSpec | tools/wiktionary_to_yomitan.py:88-123 | the terms are those of the kept entries, in input order, numbered 1, 2, ..., n |
| Wiktionary.NumberedSnoc | tools/wiktionary_to_yomitan.py:119-123 | one more kept entry gets the next sequence number |
| Wiktionary.TermBankLast | tools/wiktionary_to_yomitan.py:91-123 | the last entry adds its term, numbered after the others, exactly when it is kept |
| Wiktionary.Skipped | tools/wiktionary_to_yomitan.py:93-100 | an entry with a blank word or no Korean translation adds no term |
| Wiktionary.TermFieldsSpec | tools/wiktionary_to_yomitan.py:107-121 | term i has the eight fields: stripped word, empty reading and tags, rules cut to 20 characters, score 10 or 5, the translations, sequence i + 1, empty term tags |
| Wiktionary.TermShape | tools/wiktionary_to_yomitan.py:112-121 | a kept entry's term has that layout |
| Wiktionary.LoadEntries | tools/wiktionary_to_yomitan.py:76-83 | the loading loop keeps the decodable lines' entries in order |
| Wiktionary.DecodedAppend | tools/wiktionary_to_yomitan.py:78-83 | a dump split in two loads as its two halves |
| Wiktionary.DecodedLine | tools/wiktionary_to_yomitan.py:79-83 | an undecodable line is dropped and a decodable one gives its entry |
| Wiktionary.NatString | tools/wiktionary_to_yomitan.py:158 | `str(n)` is never empty |
| Wiktionary.Upper | tools/wiktionary_to_yomitan.py:138 | `upper()` keeps the length and leaves no lower-case ASCII letter |
| Wiktionary.WriteBanks | tools/wiktionary_to_yomitan.py:154-163 | the writing loop produces the term-bank files of the chunk specification |
| Wiktionary.BanksSpec | tools/wiktionary_to_yomitan.py:155-163 | files numbered 1, 2, ... in order, each with 1 to 10000 terms, all but the last full, together the whole bank |
| Wiktionary.ConvertToYomitan | tools/wiktionary_to_yomitan.py:61-163 | the conversion returns what the conversion specification gives |
| Wiktionary.ConvertSpec | tools/wiktionary_to_yomitan.py:131-163 | no archive is written exactly when no entry is kept; otherwise the files hold the kept entries' terms in order |
| GlosbeScraper.Simple | Scraping-Tools/Glosbe/main.py:299-350 | options that only set a global leave both languages as they were |
| GlosbeScraper.ApplyKeepsLanguages | Scraping-Tools/Glosbe/main.py:311-327 | an option the script goes on after leaves the languages supported and different; equal languages or an unsupported code quit |
| GlosbeScraper.FlagsKeepLanguages | Scraping-Tools/Glosbe/main.py:291-350 | after all the options, when the script goes on, the languages are supported and different |
| GlosbeScraper.StartOption | Scraping-Tools/Glosbe/main.py:305-310 | `-s N` sets the start point to N - 1 |
| GlosbeScraper.HelpQuits | Scraping-Tools/Glosbe/main.py:294-298 | `-h` ends the script whatever follows it |
| GlosbeScraper.RowUnderHeader | Scraping-Tools/Glosbe/main.py:259-280 | every row has the header's length and each cell sits under its own column name |
| GlosbeScraper.PiecesJoined | Scraping-Tools/Glosbe/main.py:168-171 | the accumulated text is the ", "-join plus a trailing ", " |
| GlosbeScraper.RStripJoin | Scraping-Tools/Glosbe/main.py:165-171 | accumulate-then-`rstrip(", ")` is `", ".join` for pieces that do not end in ',' or ' ' |
| GlosbeScraper.JoinClean | Scraping-Tools/Glosbe/main.py:216-220 | a join of clean pieces is clean |
| GlosbeScraper.PhraseTexts | Scraping-Tools/Glosbe/main.py:215-219 | at most one stripped text per item |
| GlosbeScraper.VisitSpec | Scraping-Tools/Glosbe/main.py:159-281 | only comprehensive mode skips; a word's visit is cut short by an exception exactly when its page is unreachable; a saved row has the header's length and starts with the word |
| GlosbeScraper.StepStops | Scraping-Tools/Glosbe/main.py:156-286 | a pass ends the run exactly on an unreachable page, or on a saved row when `sleep(delay / 1000)` raises (a negative or missing delay); a skipped word never reaches the pause |
| GlosbeScraper.TranslationCell | Scraping-Tools/Glosbe/main.py:212-220 | the translation cell never ends in ',' or ' ', and is the ", "-join of clean phrases |
| GlosbeScraper.RunCounts | Scraping-Tools/Glosbe/main.py:152-286 | each visited word adds to the count and exactly one saved row, one skip, or the end of the run on an unreachable page; outside comprehensive mode nothing is skipped; a pause that raises ends the run right after the first saved row, and only then |
| GlosbeScraper.RunStaysDown | Scraping-Tools/Glosbe/main.py:156-286 | once an exception has ended the run, later words change nothing |
| GlosbeScraper.CsvGrownSave | Scraping-Tools/Glosbe/main.py:256-281 | saving one more row keeps the file's growth rule |
| GlosbeScraper.RunCsv | Scraping-Tools/Glosbe/main.py:256-281 | output.csv keeps its earlier rows, gets the header once and first (only when empty), and one row of the header's length per saved word |
| GlosbeScraper.CountReachesLength | Scraping-Tools/Glosbe/main.py:152-157 | a run from a start point inside the list that is not stopped counts up to `len(wordlist)` |
| GlosbeScraper.Scraper.constructor | Scraping-Tools/Glosbe/main.py:12-24 | the globals start at their import-time values |
| GlosbeScraper.Scraper.ImportLangCodes | Scraping-Tools/Glosbe/main.py:352-354 | `importlangcodes` sets the codes to the comma-split file contents |
| GlosbeScraper.Scraper.CheckFlags | Scraping-Tools/Glosbe/main.py:291-350 | `checkflags` leaves the settings and exit decision of the option specification |
| GlosbeScraper.Scraper.GetWordList | Scraping-Tools/Glosbe/main.py:34-50 | `getwordlist` appends each line without its newline, and quits when the start point is past the list |
| GlosbeScraper.Scraper.Attributes | Scraping-Tools/Glosbe/main.py:164-171 | the attribute loops give the accumulated text with the trailing ", " stripped |
| GlosbeScraper.Scraper.AccumulateTranslations | Scraping-Tools/Glosbe/main.py:212-220 | the translation loop accumulates each stripped text followed by ", " |
| GlosbeScraper.Scraper.ProcessWord | Scraping-Tools/Glosbe/main.py:159-254 | the loop body gives the outcome that the visit specification gives |
| GlosbeScraper.Scraper.DataToWrite | Scraping-Tools/Glosbe/main.py:270-278 | the row is the word, then the enabled columns' cells |
| GlosbeScraper.Scraper.GetAudio | Scraping-Tools/Glosbe/main.py:182-210 | the audio URL and failure flag of the audio lookup |
| GlosbeScraper.Scraper.GetTranslation | Scraping-Tools/Glosbe/main.py:212-233 | the translation cell and failure flag of the phrase lookup |
| GlosbeScraper.Scraper.GetExampleSentences | Scraping-Tools/Glosbe/main.py:235-254 | the stripped first sentence pair, or empty, and the failure flag |
| GlosbeScraper.Scraper.GetSentences | Scraping-Tools/Glosbe/main.py:145-288 | `getsentences` leaves the file, the counters and the way the loop ended that the run specification gives from the start point |
| GlosbeScraper.Scraper.Record | Scraping-Tools/Glosbe/main.py:156-284 | one pass counts the word, ends the run on an unreachable page, counts a skip, or writes and counts a row and then ends the run when the pause raises, as one step of the run specification |
| GlosbeScraper.Scraper.WriteVisit | Scraping-Tools/Glosbe/main.py:256-281 | a saved row is appended, after the header when the file is empty |

## Left out

- I/O: file reads and writes are strings and sequences; the zip archive is modelled as its list of bank files.
- Stdout logging and verbose prints are left out; they have no effect on state.
- Sleeps are not modelled as waits. Each sleep becomes a duration that is returned or added to integer millisecond timestamps. Python's float seconds are left out. The scraper's `sleep(delay / 1000)` is modelled only by whether it raises: it does for a negative delay, and for a missing one.
- Concurrency: the thread pool's completion order is a permutation parameter. Memory interleavings inside a task are left out.
- HTTP and JSON parsing: replies are oracles. Each reply is an already-parsed JSON value or a failure.
- JSON decoding is a parameter: `json.loads` becomes a parse function that may fail. A wiktextract field of a non-string type reads as "".
- CSV quoting and parsing are left out: rows are given as cells. Latin-1 decoding of the `.dic` file is left out: lines are given decoded.
- VPN detection and switching is a boolean oracle. The manual `input()` prompt always continues.
- GoogleClient.Client.GetTranslation: the `requests` version is not pinned. The model follows requests 2.27 and later, where a body that is not JSON raises a `RequestException` and is retried. With older versions the `json.JSONDecodeError` handler would end the loop with None at once.
- GlosbeClient.Client.GetTranslation: the source retries a 429 by calling itself, with no bound. Here the retries are bounded by the finite sequence of attempts given to the client.
- GlosbeClient.Client.GetSimilarPhrases: its 429 retries are bounded in the same way.
- The scraper's `getdelay`, `getlangcode` and `getoutputpath` prompts are left out, as are getopt errors and the zero-delay prompt of `-l`. Options arrive as getopt's parsed pairs, and `int()` is a parameter.
- The scraper's audio file writing and its HTML parsing are left out. Each page is an already-extracted record of attributes, phrases, audio and examples, with a failure case for each lookup.
- GlosbeScraper.Scraper.constructor: `langs` starts as `None` in the source and as an empty list here. `importlangcodes` always sets it before use.
- Exceptions inside the sequential builder's phrase loop are left out. So are the summary prints of its `main`.
- The Tatoeba tokenizer (a `re.findall` pattern) and Unicode `lower()` are parameters.
- Wiktionary.Upper: only ASCII letters are upper-cased; Unicode case mapping for the language codes is left out.
- Python's `dict` iteration order for the Yomichan and CSV output and `set` iteration order for the retry queue are left out. Both are given as a listing parameter. For the writers, the listing must hold each key of the results exactly once.
- `Scraping-Tools/check_counts.py` is not part of this model. Neither are the scripts' sample-data helpers, nor the stray editor lines at the end of `glosbe_dictionary_builder_fixed.py`.
