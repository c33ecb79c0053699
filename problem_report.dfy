/** debug_problematic_words.txt, written the same way by all three builders: three
    comment lines and a blank line, then one `word,` line per problematic word in
    sorted order. The file is modelled as the sequence of strings written to it. */
module ProblemReport {
  import opened Order

  function Header(): seq<string> {
    [ "# Words that couldn't be translated automatically\n",
      "# You can manually add Korean translations for these\n",
      "# Format: spanish_word,korean_translation\n\n" ]
  }

  /** One `word,` line per word, in the given order. */
  function Rows(ws: seq<string>): (r: seq<string>)
    ensures |r| == |ws|
    ensures forall i :: 0 <= i < |ws| ==> r[i] == ws[i] + ",\n"
    decreases |ws|
  {
    if ws == [] then [] else [ws[0] + ",\n"] + Rows(ws[1..])
  }

  lemma {:induction false} RowsAppend(ws: seq<string>, w: string)
    ensures Rows(ws + [w]) == Rows(ws) + [w + ",\n"]
  {
    var l, r := Rows(ws + [w]), Rows(ws) + [w + ",\n"];
    assert |l| == |r|;
    forall i | 0 <= i < |l| ensures l[i] == r[i] {
      if i < |ws| { assert (ws + [w])[i] == ws[i]; }
    }
  }

  /** save_problematic_words: the header, then the words of the set in sorted order. */
  method Report(words: set<string>) returns (writes: seq<string>)
    ensures |writes| == 3 + |words| && writes[..3] == Header()
    ensures exists ws :: StrictlySorted(ws) && Elems(ws) == words && writes == Header() + Rows(ws)
  {
    var sorted := SortedList(words);
    SortedCount(sorted);
    writes := Header();
    for i := 0 to |sorted|
      invariant writes == Header() + Rows(sorted[..i])
    {
      RowsAppend(sorted[..i], sorted[i]);
      assert sorted[..i + 1] == sorted[..i] + [sorted[i]];
      writes := writes + [sorted[i] + ",\n"];
    }
    assert sorted[..|sorted|] == sorted;
  }

  /** The report is determined by the set: two sorted listings of the same words write
      the same lines. */
  lemma {:induction false} ReportDetermined(a: seq<string>, b: seq<string>)
    requires StrictlySorted(a) && StrictlySorted(b) && Elems(a) == Elems(b)
    ensures Header() + Rows(a) == Header() + Rows(b)
  {
    SortedUnique(a, b);
  }
}
