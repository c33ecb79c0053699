/** The Wiktionary converter (tools/wiktionary_to_yomitan.py): it reads a wiktextract
    dump one JSON object per line, keeps the Spanish entries that carry Korean
    translations, numbers them 1, 2, ... as Yomitan terms and writes them in term
    banks of 10000. A parsed entry is a record of the fields the converter reads; a
    field that is absent reads as "" (or false, or no items), which is how the
    converter's .get(key, default) and `in` tests treat it. */
module Wiktionary {
  import opened Text
  import opened Yomitan
  import Chunking

  datatype Translation = Translation(langCode: string, lang: string, word: string, text: string)
  datatype Sense = Sense(pos: string, translations: seq<Translation>)
  datatype Entry = Entry(word: string, pos: string, frequent: bool,
                         translations: seq<Translation>, senses: seq<Sense>)

  // ---- extract_korean_translations ----

  /** A translation into Korean: lang_code 'ko' or lang 'Korean'. */
  predicate IsKorean(t: Translation) {
    t.langCode == "ko" || t.lang == "Korean"
  }

  /** translation.get('word') or translation.get('text') */
  function KoreanText(t: Translation): string {
    if t.word != "" then t.word else t.text
  }

  /** Translation t offers the Korean text x. */
  predicate Offers(t: Translation, x: string) {
    IsKorean(t) && x != "" && KoreanText(t) == x
  }

  /** The texts a list of translations offers, in order, repeats kept: the first pass. */
  function Offered(ts: seq<Translation>): seq<string>
    decreases |ts|
  {
    if ts == [] then []
    else
      var t := ts[|ts| - 1];
      Offered(ts[..|ts| - 1]) + (if IsKorean(t) && KoreanText(t) != "" then [KoreanText(t)] else [])
  }

  /** The texts the senses' translations offer, sense by sense. */
  function SenseOffered(ss: seq<Sense>): seq<string>
    decreases |ss|
  {
    if ss == [] then [] else SenseOffered(ss[..|ss| - 1]) + Offered(ss[|ss| - 1].translations)
  }

  /** One step of the second pass: the text is added only when it is not there yet. */
  function AddNew(acc: seq<string>, t: Translation): seq<string> {
    var x := KoreanText(t);
    if IsKorean(t) && x != "" && x !in acc then acc + [x] else acc
  }

  function AddAll(acc: seq<string>, ts: seq<Translation>): seq<string>
    decreases |ts|
  {
    if ts == [] then acc else AddNew(AddAll(acc, ts[..|ts| - 1]), ts[|ts| - 1])
  }

  function AddSenses(acc: seq<string>, ss: seq<Sense>): seq<string>
    decreases |ss|
  {
    if ss == [] then acc else AddAll(AddSenses(acc, ss[..|ss| - 1]), ss[|ss| - 1].translations)
  }

  /** What extract_korean_translations returns. */
  function KoreanTranslations(e: Entry): seq<string> {
    AddSenses(Offered(e.translations), e.senses)
  }

  method ExtractKoreanTranslations(entry: Entry) returns (translations: seq<string>)
    ensures translations == KoreanTranslations(entry)
  {
    translations := [];
    var top := entry.translations;
    for k := 0 to |top|
      invariant translations == Offered(top[..k])
    {
      assert top[..k + 1][..k] == top[..k];
      var translation := top[k];
      if translation.langCode == "ko" || translation.lang == "Korean" {
        var korean := if translation.word != "" then translation.word else translation.text;
        if korean != "" {
          translations := translations + [korean];
        }
      }
    }
    assert top[..|top|] == top;
    ghost var first := translations;
    var senses := entry.senses;
    for j := 0 to |senses|
      invariant translations == AddSenses(first, senses[..j])
    {
      assert senses[..j + 1][..j] == senses[..j];
      translations := AddSenseTranslations(translations, senses[j]);
    }
    assert senses[..|senses|] == senses;
  }

  /** The inner loop over one sense's translations. */
  method AddSenseTranslations(acc: seq<string>, sense: Sense) returns (translations: seq<string>)
    ensures translations == AddAll(acc, sense.translations)
  {
    translations := acc;
    var ts := sense.translations;
    for k := 0 to |ts|
      invariant translations == AddAll(acc, ts[..k])
    {
      assert ts[..k + 1][..k] == ts[..k];
      var trans := ts[k];
      if trans.langCode == "ko" || trans.lang == "Korean" {
        var korean := if trans.word != "" then trans.word else trans.text;
        if korean != "" && korean !in translations {
          translations := translations + [korean];
        }
      }
    }
    assert ts[..|ts|] == ts;
  }

  /** From position n on, every text occurs for the first time. */
  predicate NewFrom(r: seq<string>, n: nat) {
    forall i :: n <= i < |r| ==> r[i] !in r[..i]
  }

  /** The first pass offers exactly the non-empty texts of the Korean translations. */
  lemma {:induction false} OfferedMembers(ts: seq<Translation>, x: string)
    ensures x in Offered(ts) <==> exists i :: 0 <= i < |ts| && Offers(ts[i], x)
    decreases |ts|
  {
    if ts != [] {
      var n := |ts| - 1;
      var init := ts[..n];
      OfferedMembers(init, x);
      if exists i :: 0 <= i < |init| && Offers(init[i], x) {
        var i :| 0 <= i < |init| && Offers(init[i], x);
        assert ts[i] == init[i];
      }
      if exists i :: 0 <= i < |ts| && Offers(ts[i], x) {
        var i :| 0 <= i < |ts| && Offers(ts[i], x);
        if i < n { assert init[i] == ts[i]; }
      }
    }
  }

  /** The senses offer exactly the non-empty texts of their Korean translations. */
  lemma {:induction false} SenseOfferedMembers(ss: seq<Sense>, x: string)
    ensures x in SenseOffered(ss) <==>
      exists j :: 0 <= j < |ss| && x in Offered(ss[j].translations)
    decreases |ss|
  {
    if ss != [] {
      var n := |ss| - 1;
      var init := ss[..n];
      var last := Offered(ss[n].translations);
      SenseOfferedMembers(init, x);
      assert SenseOffered(ss) == SenseOffered(init) + last;
      assert x in SenseOffered(ss) <==> x in SenseOffered(init) || x in last;
      if x in SenseOffered(init) {
        var j :| 0 <= j < |init| && x in Offered(init[j].translations);
        assert ss[j] == init[j];
      }
      if exists j :: 0 <= j < |ss| && x in Offered(ss[j].translations) {
        var j :| 0 <= j < |ss| && x in Offered(ss[j].translations);
        if j < n { assert init[j] == ss[j]; }
      }
    }
  }

  /** The second pass over one list keeps what it had, appends only texts not yet
      present, and ends holding what it had and every text the list offers. */
  lemma {:induction false} AddAllSpec(acc: seq<string>, ts: seq<Translation>, n: nat)
    requires n <= |acc| && NewFrom(acc, n)
    ensures var r := AddAll(acc, ts);
      && |acc| <= |r| && r[..|acc|] == acc && NewFrom(r, n)
      && forall x :: x in r <==> x in acc || x in Offered(ts)
    decreases |ts|
  {
    if ts != [] {
      var init := ts[..|ts| - 1];
      var t := ts[|ts| - 1];
      AddAllSpec(acc, init, n);
      var p := AddAll(acc, init);
      var r := AddNew(p, t);
      assert r[..|p|] == p;
      assert r[..|acc|] == p[..|acc|];
      if r != p {
        assert r[|p|] == KoreanText(t) && r[..|p|] == p;
      }
      assert NewFrom(r, n) by {
        forall i | n <= i < |r| ensures r[i] !in r[..i] {
          if i < |p| { assert r[..i] == p[..i] && r[i] == p[i]; }
        }
      }
    }
  }

  lemma {:induction false} AddSensesSpec(acc: seq<string>, ss: seq<Sense>, n: nat)
    requires n <= |acc| && NewFrom(acc, n)
    ensures var r := AddSenses(acc, ss);
      && |acc| <= |r| && r[..|acc|] == acc && NewFrom(r, n)
      && forall x :: x in r <==> x in acc || x in SenseOffered(ss)
    decreases |ss|
  {
    if ss != [] {
      var init := ss[..|ss| - 1];
      AddSensesSpec(acc, init, n);
      var p := AddSenses(acc, init);
      AddAllSpec(p, ss[|ss| - 1].translations, n);
      var r := AddSenses(acc, ss);
      assert r[..|acc|] == r[..|p|][..|acc|];
    }
  }

  /** The two passes: the result starts with every Korean text of the top-level
      translations, in order and with repeats; after that each text is new; and a text
      is in the result exactly when some top-level or sense-level Korean translation
      offers it. */
  lemma {:induction false} KoreanTranslationsSpec(e: Entry, x: string)
    ensures var r := KoreanTranslations(e);
      var top := Offered(e.translations);
      && |top| <= |r| && r[..|top|] == top
      && NewFrom(r, |top|)
      && (x in r <==>
          (exists i :: 0 <= i < |e.translations| && Offers(e.translations[i], x))
          || (exists j :: 0 <= j < |e.senses| && x in Offered(e.senses[j].translations)))
  {
    var top := Offered(e.translations);
    AddSensesSpec(top, e.senses, |top|);
    OfferedMembers(e.translations, x);
    SenseOfferedMembers(e.senses, x);
  }

  // ---- extract_part_of_speech ----

  /** The entry's pos, falling back to the first sense's pos. */
  function PartOfSpeech(e: Entry): (r: string)
    ensures e.pos != "" ==> r == e.pos
    ensures e.pos == "" && e.senses != [] ==> r == e.senses[0].pos
    ensures e.pos == "" && e.senses == [] ==> r == ""
  {
    if e.pos != "" then e.pos
    else if e.senses != [] then e.senses[0].pos
    else ""
  }

  // ---- The term bank ----

  /** An entry that becomes a term: a non-blank word and some Korean translation. */
  predicate Kept(e: Entry) {
    Strip(e.word) != "" && KoreanTranslations(e) != []
  }

  function Rules(e: Entry): string {
    var pos := PartOfSpeech(e);
    if pos != "" then Take(pos, 20) else ""
  }

  function Score(e: Entry): int {
    if e.frequent then 10 else 5
  }

  function Strings(xs: seq<string>): (r: seq<Json>)
    ensures |r| == |xs| && forall i :: 0 <= i < |xs| ==> r[i] == JStr(xs[i])
    decreases |xs|
  {
    if xs == [] then [] else [JStr(xs[0])] + Strings(xs[1..])
  }

  /** [expression, reading, tags, rules, score, glosses, sequence, termTags] */
  function Term(e: Entry, sequence: int): Json {
    JArr([JStr(Strip(e.word)), JStr(""), JStr(""), JStr(Rules(e)), JInt(Score(e)),
          JArr(Strings(KoreanTranslations(e))), JInt(sequence), JStr("")])
  }

  /** The term bank convert_to_yomitan builds from the loaded entries. */
  function TermBank(es: seq<Entry>): seq<Json>
    decreases |es|
  {
    if es == [] then []
    else
      var bank := TermBank(es[..|es| - 1]);
      var e := es[|es| - 1];
      if Kept(e) then bank + [Term(e, |bank| + 1)] else bank
  }

  /** The conversion loop, with its `sequence` counter. */
  method BuildTermBank(entries: seq<Entry>) returns (termBank: seq<Json>)
    ensures termBank == TermBank(entries)
  {
    termBank := [];
    var sequence := 1;
    for k := 0 to |entries|
      invariant termBank == TermBank(entries[..k]) && sequence == |termBank| + 1
    {
      assert entries[..k + 1][..k] == entries[..k];
      var entry := entries[k];
      var word := Strip(entry.word);
      if word == "" {
        continue;
      }
      var korean := ExtractKoreanTranslations(entry);
      if korean == [] {
        continue;
      }
      var pos := PartOfSpeech(entry);
      var score := 5;
      if entry.frequent {
        score := 10;
      }
      termBank := termBank + [JArr([JStr(word), JStr(""), JStr(""),
                                    JStr(if pos != "" then Take(pos, 20) else ""), JInt(score),
                                    JArr(Strings(korean)), JInt(sequence), JStr("")])];
      sequence := sequence + 1;
    }
    assert entries[..|entries|] == entries;
  }

  /** The terms are those of the kept entries, in input order, numbered 1, 2, ..., n. */
  lemma {:induction false} TermBankSpec(es: seq<Entry>)
    ensures Numbered(TermBank(es), Filter(es, Kept))
    decreases |es|
  {
    if es != [] {
      var init := es[..|es| - 1];
      var e := es[|es| - 1];
      TermBankSpec(init);
      TermBankLast(es);
      var bank := TermBank(init);
      var kept := Filter(init, Kept);
      if Kept(e) {
        NumberedSnoc(bank, kept, e);
      }
    }
  }

  /** The terms of the entries ks, numbered 1, 2, ... */
  predicate Numbered(bank: seq<Json>, ks: seq<Entry>) {
    |bank| == |ks| && forall i :: 0 <= i < |bank| ==> bank[i] == Term(ks[i], i + 1)
  }

  lemma {:induction false} NumberedSnoc(bank: seq<Json>, ks: seq<Entry>, e: Entry)
    requires Numbered(bank, ks)
    ensures Numbered(bank + [Term(e, |bank| + 1)], ks + [e])
  {
    var bank', ks' := bank + [Term(e, |bank| + 1)], ks + [e];
    forall i | 0 <= i < |bank'| ensures bank'[i] == Term(ks'[i], i + 1) {
      if i < |bank| {
        assert bank'[i] == bank[i] && ks'[i] == ks[i];
      } else {
        assert bank'[i] == Term(e, |bank| + 1) && ks'[i] == e;
      }
    }
  }

  /** The last entry adds its term, numbered after the others, exactly when it is kept. */
  lemma {:induction false} TermBankLast(es: seq<Entry>)
    requires es != []
    ensures var init := es[..|es| - 1]; var e := es[|es| - 1];
      && (Kept(e) ==>
            TermBank(es) == TermBank(init) + [Term(e, |TermBank(init)| + 1)] && Filter(es, Kept) == Filter(init, Kept) + [e])
      && (!Kept(e) ==> TermBank(es) == TermBank(init) && Filter(es, Kept) == Filter(init, Kept))
  {
    var init := es[..|es| - 1];
    var e := es[|es| - 1];
    assert es == init + [e];
    FilterAppend(init, [e], Kept);
    assert [e][1..] == [];
  }

  /** An entry with a blank word, or with no Korean translation, adds no term. */
  lemma {:induction false} Skipped(es: seq<Entry>, e: Entry)
    requires Strip(e.word) == "" || KoreanTranslations(e) == []
    ensures TermBank(es + [e]) == TermBank(es)
  {
    assert (es + [e])[..|es|] == es;
  }

  /** Every term has the eight fields in the Yomitan order: a non-blank stripped word,
      empty reading and tags, rules at most 20 characters long cut from the part of
      speech, score 10 for a frequent entry and 5 otherwise, the Korean translations
      as a non-empty list, its sequence number 1..n, and empty term tags. */
  lemma {:induction false} TermFieldsSpec(es: seq<Entry>, i: nat)
    requires i < |Filter(es, Kept)|
    ensures i < |TermBank(es)|
    ensures TermBank(es)[i] == Term(Filter(es, Kept)[i], i + 1)
    ensures TermLayout(TermBank(es)[i], Filter(es, Kept)[i], i + 1)
  {
    TermBankSpec(es);
    TermShape(Filter(es, Kept)[i], i + 1);
  }

  /** The row layout of the term of a kept entry. */
  predicate TermLayout(term: Json, e: Entry, sequence: int) {
    var f := TermFields(term);
    && |f| == 8
    && f[0] == JStr(Strip(e.word)) && Strip(e.word) != "" && Trimmed(Strip(e.word))
    && f[1] == JStr("") && f[2] == JStr("") && f[7] == JStr("")
    && f[3] == JStr(Take(PartOfSpeech(e), 20)) && |f[3].s| <= 20
    && f[4] == JInt(if e.frequent then 10 else 5)
    && f[5] == JArr(Strings(KoreanTranslations(e))) && |f[5].items| > 0
    && f[6] == JInt(sequence)
  }

  lemma {:induction false} TermShape(e: Entry, sequence: int)
    requires Kept(e)
    ensures TermLayout(Term(e, sequence), e, sequence)
  {
    var f := TermFields(Term(e, sequence));
    assert f[3] == JStr(Take(PartOfSpeech(e), 20));
  }

  // ---- Loading the dump ----

  /** The entries of the dump: json.loads of each stripped line, where `parse` gives
      None for a line that is not valid JSON. */
  function Decoded(parse: string -> Option<Entry>, lines: seq<string>): seq<Entry>
    decreases |lines|
  {
    if lines == [] then [] else LineEntry(parse, lines[0]) + Decoded(parse, lines[1..])
  }

  /** The entry one line contributes: none when it does not decode. */
  function LineEntry(parse: string -> Option<Entry>, line: string): seq<Entry> {
    match parse(Strip(line))
    case Some(e) => [e]
    case None => []
  }

  method LoadEntries(parse: string -> Option<Entry>, lines: seq<string>) returns (entries: seq<Entry>)
    ensures entries == Decoded(parse, lines)
  {
    entries := [];
    for k := 0 to |lines|
      invariant entries == Decoded(parse, lines[..k])
    {
      assert lines[..k + 1] == lines[..k] + [lines[k]];
      DecodedAppend(parse, lines[..k], [lines[k]]);
      DecodedLine(parse, lines[k]);
      match parse(Strip(lines[k])) {
        case Some(entry) => entries := entries + [entry];
        case None =>
      }
    }
    assert lines[..|lines|] == lines;
  }

  /** Loading is line by line: a dump split in two loads as the two halves. Together
      with the next lemma, undecodable lines are dropped and the rest kept in order. */
  lemma {:induction false} DecodedAppend(parse: string -> Option<Entry>, a: seq<string>, b: seq<string>)
    ensures Decoded(parse, a + b) == Decoded(parse, a) + Decoded(parse, b)
    decreases |a|
  {
    if a == [] {
      assert a + b == b;
    } else {
      assert (a + b)[0] == a[0] && (a + b)[1..] == a[1..] + b;
      DecodedAppend(parse, a[1..], b);
    }
  }

  lemma {:induction false} DecodedLine(parse: string -> Option<Entry>, line: string)
    ensures parse(Strip(line)).None? ==> Decoded(parse, [line]) == []
    ensures parse(Strip(line)).Some? ==> Decoded(parse, [line]) == [parse(Strip(line)).value]
  {
    assert [line][1..] == [];
  }

  // ---- The archive ----

  const ChunkSize: nat := 10000

  datatype BankFile = BankFile(number: nat, terms: seq<Json>)
  datatype Archive = Archive(index: Json, banks: seq<BankFile>)

  function Digit(d: nat): char
    requires d < 10
  {
    "0123456789"[d]
  }

  /** str(n) */
  function NatString(n: nat): (r: string)
    ensures |r| > 0
  {
    if n < 10 then [Digit(n)] else NatString(n / 10) + [Digit(n % 10)]
  }

  /** f'term_bank_{bank_num}.json' */
  function BankName(f: BankFile): string {
    "term_bank_" + NatString(f.number) + ".json"
  }

  /** str.upper() on ASCII letters. */
  function Upper(s: string): (r: string)
    ensures |r| == |s| && forall i :: 0 <= i < |s| ==> !('a' <= r[i] <= 'z')
    decreases |s|
  {
    if s == [] then ""
    else
      var c := s[0];
      [if 'a' <= c <= 'z' then (c as int - 32) as char else c] + Upper(s[1..])
  }

  function Index(source: string, target: string): Json {
    JObj([("title", JStr(Upper(source) + "-" + Upper(target) + " Wiktionary")),
          ("format", JInt(3)),
          ("revision", JStr("wiktionary_2024")),
          ("sequenced", JBool(true)),
          ("author", JStr("Wiktionary Contributors")),
          ("url", JStr("https://" + source + ".wiktionary.org")),
          ("description", JStr(Upper(source) + " to " + Upper(target) + " dictionary extracted from Wiktionary")),
          ("attribution", JStr("CC BY-SA 3.0"))])
  }

  /** The term-bank files: chunk k (from 0) of the bank, numbered k + 1. */
  function Banks(bank: seq<Json>): seq<BankFile> {
    var chunks := Chunking.Chunks(bank, ChunkSize);
    seq(|chunks|, k requires 0 <= k < |chunks| => BankFile(k + 1, chunks[k]))
  }

  /** The writing loop: range(0, len(term_bank), chunk_size). */
  method WriteBanks(bank: seq<Json>) returns (files: seq<BankFile>)
    ensures files == Banks(bank)
  {
    ghost var chunks := Chunking.Chunks(bank, ChunkSize);
    files := [];
    var i := 0;
    while i < |bank|
      invariant i == |files| * ChunkSize && |files| <= |chunks|
      invariant forall k :: 0 <= k < |files| ==> files[k] == BankFile(k + 1, chunks[k])
      decreases |bank| - i
    {
      Chunking.ChunkCount(bank, ChunkSize, |files|);
      Chunking.ChunkAt(bank, ChunkSize, |files|);
      Chunking.DivUnique(i, ChunkSize, |files|, 0);
      var chunk := bank[i..Chunking.Min(i + ChunkSize, |bank|)];
      var bankNum := i / ChunkSize + 1;
      files := files + [BankFile(bankNum, chunk)];
      i := i + ChunkSize;
    }
    Chunking.ChunkCount(bank, ChunkSize, |files|);
  }

  /** The terms of each file, in file order. */
  function FileTerms(files: seq<BankFile>): seq<seq<Json>> {
    seq(|files|, k requires 0 <= k < |files| => files[k].terms)
  }

  /** The files are numbered 1, 2, ... in order; each holds between 1 and 10000 terms,
      all but the last exactly 10000; and put back together they are the whole bank. */
  lemma {:induction false} BanksSpec(bank: seq<Json>)
    ensures var files := Banks(bank);
      && |files| == Chunking.CeilDiv(|bank|, ChunkSize)
      && (forall k :: 0 <= k < |files| ==> files[k].number == k + 1 && 0 < |files[k].terms| <= ChunkSize)
      && (forall k :: 0 <= k < |files| - 1 ==> |files[k].terms| == ChunkSize)
      && Chunking.Flatten(FileTerms(files)) == bank
  {
    Chunking.ChunksShape(bank, ChunkSize);
    Chunking.FlattenChunks(bank, ChunkSize);
    assert FileTerms(Banks(bank)) == Chunking.Chunks(bank, ChunkSize);
  }

  /** convert_to_yomitan: None when no term was produced (nothing is written);
      otherwise the index and the term-bank files. */
  function Convert(parse: string -> Option<Entry>, lines: seq<string>, source: string, target: string): Option<Archive> {
    var bank := TermBank(Decoded(parse, lines));
    if bank == [] then None else Some(Archive(Index(source, target), Banks(bank)))
  }

  method ConvertToYomitan(parse: string -> Option<Entry>, lines: seq<string>, source: string, target: string)
    returns (archive: Option<Archive>)
    ensures archive == Convert(parse, lines, source, target)
  {
    var entries := LoadEntries(parse, lines);
    var termBank := BuildTermBank(entries);
    if |termBank| == 0 {
      return None;
    }
    var files := WriteBanks(termBank);
    archive := Some(Archive(Index(source, target), files));
  }

  /** No archive is written exactly when no loaded entry is kept; otherwise the files
      hold the terms of the kept entries, in order. */
  lemma {:induction false} ConvertSpec(parse: string -> Option<Entry>, lines: seq<string>, source: string, target: string)
    ensures var es := Decoded(parse, lines);
      && (Convert(parse, lines, source, target).None? <==> Filter(es, Kept) == [])
      && (Convert(parse, lines, source, target).Some? ==>
            Chunking.Flatten(FileTerms(Convert(parse, lines, source, target).value.banks)) == TermBank(es))
  {
    var es := Decoded(parse, lines);
    TermBankSpec(es);
    BanksSpec(TermBank(es));
  }
}
