/** The CSV dictionary builder (dict_builder.py): every CSV row `spanish,korean` with
    both cells non-blank becomes a six-field Yomichan term whose only definition is a
    structured-content div holding the Korean text. Rows are given already split into
    cells. */
module DictBuilder {
  import opened Text
  import opened Yomitan

  /** [term, reading, definition_tags, rule_identifier, popularity_score, definitions] */
  function CreateEntry(spanish: string, korean: string, frequency: int := 0): Json {
    JArr([JStr(spanish), JStr(""), JStr(""), JStr("unknown"), JInt(frequency),
          JArr([StructuredContent([Node("div", JStr(korean))])])])
  }

  /** The text of the first content block, when it is a div holding text. */
  function DivText(entry: Json): Option<string> {
    var blocks := ContentBlocks(entry);
    if blocks != [] && TagOf(blocks[0]) == "div" then
      match ContentOf(blocks[0])
      case Some(JStr(t)) => Some(t)
      case _ => None
    else None
  }

  /** An entry reads back as its term, the rule "unknown", its score and its Korean
      text; without a frequency the score is 0. */
  lemma {:induction false} CreateEntrySpec(spanish: string, korean: string, frequency: int)
    ensures var f := TermFields(CreateEntry(spanish, korean, frequency));
      && |f| == 6 && f[0] == JStr(spanish) && f[1] == JStr("") && f[2] == JStr("")
      && f[3] == JStr("unknown") && f[4] == JInt(frequency)
    ensures ContentBlocks(CreateEntry(spanish, korean, frequency)) == [Node("div", JStr(korean))]
    ensures DivText(CreateEntry(spanish, korean, frequency)) == Some(korean)
    ensures TermFields(CreateEntry(spanish, korean))[4] == JInt(0)
  {
    var content := StructuredContent([Node("div", JStr(korean))]);
    assert content.fields[1] == ("content", JArr([Node("div", JStr(korean))]));
    assert Get(content.fields, "content") == Some(JArr([Node("div", JStr(korean))]));
    var div := Node("div", JStr(korean));
    assert Get(div.fields, "tag") == Some(JStr("div"));
    assert Get(div.fields, "content") == Some(JStr(korean));
  }

  /** A row that gives an entry: two cells or more, the first two non-blank. */
  predicate Usable(row: seq<string>) {
    |row| >= 2 && Strip(row[0]) != "" && Strip(row[1]) != ""
  }

  /** The entry one row contributes. */
  function RowEntry(row: seq<string>): seq<Json> {
    if Usable(row) then [CreateEntry(Strip(row[0]), Strip(row[1]))] else []
  }

  /** The entries csv_to_yomichan collects, in row order. */
  function Entries(rows: seq<seq<string>>): seq<Json>
    decreases |rows|
  {
    if rows == [] then [] else RowEntry(rows[0]) + Entries(rows[1..])
  }

  lemma {:induction false} EntriesAppend(a: seq<seq<string>>, b: seq<seq<string>>)
    ensures Entries(a + b) == Entries(a) + Entries(b)
    decreases |a|
  {
    if a == [] {
      assert a + b == b;
    } else {
      assert (a + b)[0] == a[0] && (a + b)[1..] == a[1..] + b;
      EntriesAppend(a[1..], b);
    }
  }

  /** The row loop of csv_to_yomichan; `count` is the number it reports. */
  method CsvToYomichan(rows: seq<seq<string>>) returns (entries: seq<Json>, count: nat)
    ensures entries == Entries(rows) && count == |entries|
  {
    entries := [];
    for k := 0 to |rows|
      invariant entries == Entries(rows[..k])
    {
      assert rows[..k + 1] == rows[..k] + [rows[k]];
      EntriesAppend(rows[..k], [rows[k]]);
      assert [rows[k]][1..] == [];
      var row := rows[k];
      if |row| >= 2 {
        var spanish, korean := Strip(row[0]), Strip(row[1]);
        if spanish != "" && korean != "" {
          var entry := CreateEntry(spanish, korean);
          entries := entries + [entry];
        }
      }
    }
    assert rows[..|rows|] == rows;
    count := |entries|;
  }

  /** Entry i is made from the i-th usable row, from its two stripped first cells: so
      a row gives an entry exactly when it is usable, the entries keep row order, and
      the reported count is the number of usable rows. */
  lemma {:induction false} EntriesSpec(rows: seq<seq<string>>)
    ensures var kept := Filter(rows, Usable);
      && |Entries(rows)| == |kept|
      && forall i :: 0 <= i < |kept| ==> Entries(rows)[i] == CreateEntry(Strip(kept[i][0]), Strip(kept[i][1]))
    decreases |rows|
  {
    if rows != [] {
      EntriesSpec(rows[1..]);
      var rest := Entries(rows[1..]);
      var kept := Filter(rows[1..], Usable);
      if Usable(rows[0]) {
        var row := rows[0];
        var e := CreateEntry(Strip(row[0]), Strip(row[1]));
        assert Entries(rows) == [e] + rest;
        assert Filter(rows, Usable) == [row] + kept;
        forall i | 0 <= i < |kept| + 1
          ensures ([e] + rest)[i] == CreateEntry(Strip(([row] + kept)[i][0]), Strip(([row] + kept)[i][1]))
        {
          if i > 0 {
            assert ([e] + rest)[i] == rest[i - 1] && ([row] + kept)[i] == kept[i - 1];
          }
        }
      } else {
        assert Entries(rows) == rest;
      }
    }
  }

  /** Cells after the second play no part. */
  lemma {:induction false} ExtraCellsIgnored(row: seq<string>)
    requires |row| >= 2
    ensures Entries([row]) == Entries([row[..2]])
  {
    assert [row][1..] == [] && [row[..2]][1..] == [];
    assert row[..2][0] == row[0] && row[..2][1] == row[1];
  }
}
