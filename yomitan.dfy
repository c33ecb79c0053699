/** JSON values as json.loads produces them and json.dump writes them, the Yomitan
    structured-content nodes the term-entry builders emit, and readers that take an
    emitted entry apart again (what a dictionary viewer shows of it). */
module Yomitan {
  import opened Text
  import Chunking

  /** A JSON value. Objects keep their key order, as Python dicts do when dumped. */
  datatype Json =
    | JNull
    | JBool(b: bool)
    | JInt(n: int)
    | JStr(s: string)
    | JArr(items: seq<Json>)
    | JObj(fields: seq<(string, Json)>)

  /** obj.get(key) on a parsed object: json.loads keeps the last binding of a key. */
  function Get(fields: seq<(string, Json)>, key: string): (r: Option<Json>)
    ensures r.None? <==> forall i :: 0 <= i < |fields| ==> fields[i].0 != key
    ensures r.Some? ==> exists i :: 0 <= i < |fields| && fields[i] == (key, r.value)
    decreases |fields|
  {
    if fields == [] then None
    else
      var n := |fields| - 1;
      if fields[n].0 == key then Some(fields[n].1) else Get(fields[..n], key)
  }

  // ---- Structured-content nodes as the builders write them ----

  function Node(tag: string, content: Json): Json {
    JObj([("tag", JStr(tag)), ("content", content)])
  }

  function Br(): Json {
    JObj([("tag", JStr("br"))])
  }

  function StructuredContent(content: seq<Json>): Json {
    JObj([("type", JStr("structured-content")), ("content", JArr(content))])
  }

  /** The main translation: a div holding the text in a strong element. */
  function TranslationBlock(korean: string): Json {
    Node("div", JArr([Node("strong", JStr(korean))]))
  }

  /** A line break and a div with a small "Flags: ..." element. */
  function FlagsBlocks(flags: string): seq<Json> {
    [Br(), Node("div", JArr([Node("small", JStr("Flags: " + flags))]))]
  }

  function ListItems(xs: seq<string>): (r: seq<Json>)
    ensures |r| == |xs|
    ensures forall i :: 0 <= i < |xs| ==> r[i] == Node("li", JStr(xs[i]))
    decreases |xs|
  {
    if xs == [] then [] else [Node("li", JStr(xs[0]))] + ListItems(xs[1..])
  }

  /** A line break, an "Examples:" heading and a list of the first three examples. */
  function ExampleBlocks(examples: seq<string>): seq<Json> {
    [Br(), ExampleHead(), Node("ul", JArr(ListItems(Take(examples, 3))))]
  }

  // ---- Readers ----

  /** The "tag" of a node, "" when it has none. */
  function TagOf(node: Json): string {
    if node.JObj? then
      match Get(node.fields, "tag")
      case Some(JStr(t)) => t
      case _ => ""
    else ""
  }

  function ContentOf(node: Json): Option<Json> {
    if node.JObj? then Get(node.fields, "content") else None
  }

  function Tags(blocks: seq<Json>): (r: seq<string>)
    ensures |r| == |blocks| && forall i :: 0 <= i < |blocks| ==> r[i] == TagOf(blocks[i])
    decreases |blocks|
  {
    if blocks == [] then [] else [TagOf(blocks[0])] + Tags(blocks[1..])
  }

  /** The text of a `tag` node whose content is a single `inner` node holding text. */
  function WrappedText(node: Json, tag: string, inner: string): Option<string> {
    if TagOf(node) != tag then None
    else
      match ContentOf(node)
      case Some(JArr(xs)) =>
        if |xs| == 1 && TagOf(xs[0]) == inner then
          match ContentOf(xs[0])
          case Some(JStr(t)) => Some(t)
          case _ => None
        else None
      case _ => None
  }

  /** The translation shown first: the strong text of the first block. */
  function ReadTranslation(blocks: seq<Json>): Option<string> {
    if blocks == [] then None else WrappedText(blocks[0], "div", "strong")
  }

  /** The flags shown in the first "Flags: ..." block, "" when there is none. */
  function ReadFlags(blocks: seq<Json>): string
    decreases |blocks|
  {
    if blocks == [] then ""
    else
      match WrappedText(blocks[0], "div", "small")
      case Some(t) =>
        if |t| >= 7 && t[..7] == "Flags: " then t[7..] else ReadFlags(blocks[1..])
      case None => ReadFlags(blocks[1..])
  }

  /** The text of each li item of a list. */
  function ListTexts(items: seq<Json>): seq<string>
    decreases |items|
  {
    if items == [] then []
    else
      var rest := ListTexts(items[1..]);
      if TagOf(items[0]) == "li" then
        match ContentOf(items[0])
        case Some(JStr(t)) => [t] + rest
        case _ => rest
      else rest
  }

  /** The examples shown: the items of the first ul block, [] when there is none. */
  function ReadExamples(blocks: seq<Json>): seq<string>
    decreases |blocks|
  {
    if blocks == [] then []
    else if TagOf(blocks[0]) == "ul" then
      match ContentOf(blocks[0])
      case Some(JArr(items)) => ListTexts(items)
      case _ => []
    else ReadExamples(blocks[1..])
  }

  /** The fields of a term row, [] when the value is not a list. */
  function TermFields(entry: Json): seq<Json> {
    if entry.JArr? then entry.items else []
  }

  /** The content blocks of the first structured-content definition of a six- or
      eight-field term row. */
  function ContentBlocks(entry: Json): seq<Json> {
    var f := TermFields(entry);
    if |f| >= 6 && f[5].JArr? && |f[5].items| >= 1 then
      match ContentOf(f[5].items[0])
      case Some(JArr(blocks)) => blocks
      case _ => []
    else []
  }

  // ---- Reading back what the builders write ----

  lemma {:induction false} NodeReads(tag: string, content: Json)
    ensures TagOf(Node(tag, content)) == tag
    ensures ContentOf(Node(tag, content)) == Some(content)
  {
    var f := [("tag", JStr(tag)), ("content", content)];
    assert "content" != "tag" by { assert "content"[0] != "tag"[0]; }
    assert f[..1] == [("tag", JStr(tag))];
    assert f[..1][..0] == [];
    assert Get(f, "tag") == Get(f[..1], "tag");
  }

  lemma {:induction false} BrReads()
    ensures TagOf(Br()) == "br" && ContentOf(Br()) == None
  {
    assert "content" != "tag" by { assert "content"[0] != "tag"[0]; }
    assert [("tag", JStr("br"))][..0] == [];
  }

  lemma {:induction false} StructuredContentReads(content: seq<Json>)
    ensures ContentOf(StructuredContent(content)) == Some(JArr(content))
  {
  }

  /** The li items of an emitted list read back as the listed texts, in order. */
  lemma {:induction false} ListTextsItems(xs: seq<string>)
    ensures ListTexts(ListItems(xs)) == xs
    decreases |xs|
  {
    if xs != [] {
      var items := ListItems(xs);
      assert items[0] == Node("li", JStr(xs[0]));
      NodeReads("li", JStr(xs[0]));
      assert items[1..] == ListItems(xs[1..]);
      ListTextsItems(xs[1..]);
      assert ListTexts(items) == [xs[0]] + ListTexts(items[1..]);
    }
  }

  lemma {:induction false} TranslationBlockReads(korean: string)
    ensures TagOf(TranslationBlock(korean)) == "div"
    ensures WrappedText(TranslationBlock(korean), "div", "strong") == Some(korean)
    ensures WrappedText(TranslationBlock(korean), "div", "small") == None
  {
    NodeReads("div", JArr([Node("strong", JStr(korean))]));
    NodeReads("strong", JStr(korean));
    assert "strong" != "small" by { assert "strong"[1] != "small"[1]; }
  }

  lemma {:induction false} FlagsBlocksRead(flags: string, rest: seq<Json>)
    ensures Tags(FlagsBlocks(flags)) == ["br", "div"]
    ensures ReadFlags(FlagsBlocks(flags) + rest) == flags
    ensures ReadExamples(FlagsBlocks(flags) + rest) == ReadExamples(rest)
  {
    var b := FlagsBlocks(flags) + rest;
    BrReads();
    NodeReads("div", JArr([Node("small", JStr("Flags: " + flags))]));
    NodeReads("small", JStr("Flags: " + flags));
    assert Tags(FlagsBlocks(flags))[1..] == Tags(FlagsBlocks(flags)[1..]);
    assert b[0] == Br() && b[1..][0] == FlagsBlocks(flags)[1];
    assert b[1..][1..] == rest;
    assert TagOf(Br()) == "br";
    assert WrappedText(Br(), "div", "small") == None;
    assert ("Flags: " + flags)[..7] == "Flags: " && ("Flags: " + flags)[7..] == flags;
  }

  lemma {:induction false} ExampleBlocksRead(examples: seq<string>)
    ensures Tags(ExampleBlocks(examples)) == ["br", "div", "ul"]
    ensures ReadFlags(ExampleBlocks(examples)) == ""
    ensures ReadExamples(ExampleBlocks(examples)) == Take(examples, 3)
  {
    var b := ExampleBlocks(examples);
    var ul := Node("ul", JArr(ListItems(Take(examples, 3))));
    ExampleHeadReads();
    NodeReads("ul", JArr(ListItems(Take(examples, 3))));
    assert b == [Br(), ExampleHead()] + [ul];
    assert b[1..] == [ExampleHead(), ul] && b[1..][1..] == [ul] && [ul][1..] == [];
    assert WrappedText(ul, "div", "small") == None by {
      assert "div" != "ul";
    }
    assert ReadFlags([ul]) == "";
    ListTextsItems(Take(examples, 3));
    assert ReadExamples([ul]) == Take(examples, 3);
  }

  /** The "Examples:" heading: a div holding an em. */
  function ExampleHead(): Json {
    Node("div", JArr([Node("em", JStr("Examples:"))]))
  }

  lemma {:induction false} ExampleHeadReads()
    ensures TagOf(Br()) == "br" && WrappedText(Br(), "div", "small") == None
    ensures TagOf(ExampleHead()) == "div" && WrappedText(ExampleHead(), "div", "small") == None
  {
    BrReads();
    NodeReads("div", JArr([Node("em", JStr("Examples:"))]));
    NodeReads("em", JStr("Examples:"));
    assert "em" != "small";
  }

  lemma {:induction false} NoExamplesInEmpty()
    ensures ReadFlags([]) == "" && ReadExamples([]) == []
  {
  }

  /** The content list the term-entry builders assemble: the translation block, the
      flags blocks when there are flags, the example blocks when there are examples. */
  function EntryContent(korean: string, flags: string, examples: seq<string>): seq<Json> {
    [TranslationBlock(korean)] + (FlagsPart(flags) + ExamplesPart(examples))
  }

  function FlagsPart(flags: string): seq<Json> {
    if flags != "" then FlagsBlocks(flags) else []
  }

  function ExamplesPart(examples: seq<string>): seq<Json> {
    if examples != [] then ExampleBlocks(examples) else []
  }

  /** What a viewer reads back from an assembled content list: the translation first,
      the flags blocks exactly when flags are non-empty, the example blocks exactly when
      there are examples, and at most the first three examples, in order. */
  lemma {:induction false} EntryContentReads(korean: string, flags: string, examples: seq<string>)
    ensures ReadTranslation(EntryContent(korean, flags, examples)) == Some(korean)
    ensures Tags(EntryContent(korean, flags, examples))
      == ["div"] + (if flags != "" then ["br", "div"] else []) + (if examples != [] then ["br", "div", "ul"] else [])
    ensures ReadFlags(EntryContent(korean, flags, examples)) == flags
    ensures ReadExamples(EntryContent(korean, flags, examples)) == Take(examples, 3)
  {
    var rest := FlagsPart(flags) + ExamplesPart(examples);
    EntryContentTail(korean, rest);
    EntryContentTags(flags, examples);
    TagsAppend([TranslationBlock(korean)], rest);
    TranslationBlockReads(korean);
    PartsRead(flags, examples);
  }

  /** Past the translation block, the flags and examples are read from the rest. */
  lemma {:induction false} EntryContentTail(korean: string, rest: seq<Json>)
    ensures ReadFlags([TranslationBlock(korean)] + rest) == ReadFlags(rest)
    ensures ReadExamples([TranslationBlock(korean)] + rest) == ReadExamples(rest)
    ensures ReadTranslation([TranslationBlock(korean)] + rest) == Some(korean)
  {
    var c := [TranslationBlock(korean)] + rest;
    assert c[1..] == rest && c[0] == TranslationBlock(korean);
    TranslationBlockReads(korean);
  }

  lemma {:induction false} PartsRead(flags: string, examples: seq<string>)
    ensures ReadFlags(FlagsPart(flags) + ExamplesPart(examples)) == flags
    ensures ReadExamples(FlagsPart(flags) + ExamplesPart(examples)) == Take(examples, 3)
  {
    var eb := ExamplesPart(examples);
    if examples != [] {
      ExampleBlocksRead(examples);
    } else {
      NoExamplesInEmpty();
    }
    if flags != "" {
      FlagsBlocksRead(flags, eb);
    } else {
      assert FlagsPart(flags) + eb == eb;
    }
  }

  lemma {:induction false} EntryContentTags(flags: string, examples: seq<string>)
    ensures Tags(FlagsPart(flags) + ExamplesPart(examples))
      == (if flags != "" then ["br", "div"] else []) + (if examples != [] then ["br", "div", "ul"] else [])
  {
    TagsAppend(FlagsPart(flags), ExamplesPart(examples));
    if flags != "" { FlagsBlocksRead(flags, []); }
    if examples != [] { ExampleBlocksRead(examples); }
  }

  lemma {:induction false} TagsAppend(a: seq<Json>, b: seq<Json>)
    ensures Tags(a + b) == Tags(a) + Tags(b)
  {
    var l, r := Tags(a + b), Tags(a) + Tags(b);
    forall i | 0 <= i < |l| ensures l[i] == r[i] {
      if i < |a| { assert (a + b)[i] == a[i]; } else { assert (a + b)[i] == b[i - |a|]; }
    }
  }
}
