/** What the front matter prints, as a tree; and why the scanner reads it back. */
module FlowPrinter {
  import opened Text
  import opened YamlScalar
  import opened FlowScanner

  datatype Node =
    | Text(text: string)            // caller text, quoted
    | Word(word: string)            // a number, a keyword, a stem: written as it is
    | Mapping(entries: seq<Entry>)
    | List(items: seq<Node>)

  /** `quoted` labels are caller text; the others are fixed field names. */
  datatype Entry = Entry(quoted: bool, name: string, node: Node)

  function PrintLabel(e: Entry): string {
    if e.quoted then Quoted(e.name) else e.name
  }

  function Print(n: Node): string
    decreases n, 1
  {
    match n
    case Text(text) => Quoted(text)
    case Word(word) => word
    case Mapping(entries) => "{" + PrintEntries(entries) + "}"
    case List(items) => "[" + PrintItems(items) + "]"
  }

  function PrintEntries(entries: seq<Entry>): string
    decreases entries, 0
  {
    if entries == [] then ""
    else PrintLabel(entries[0]) + ": " + Print(entries[0].node) + MoreEntries(entries[1..])
  }

  function MoreEntries(entries: seq<Entry>): string
    decreases entries, 1
  {
    if entries == [] then "" else ", " + PrintEntries(entries)
  }

  function PrintItems(items: seq<Node>): string
    decreases items, 0
  {
    if items == [] then "" else Print(items[0]) + MoreItems(items[1..])
  }

  function MoreItems(items: seq<Node>): string
    decreases items, 1
  {
    if items == [] then "" else ", " + PrintItems(items)
  }

  /** The value a tree stands for; a label that occurs twice means its last entry. */
  function Meaning(n: Node): Value
    decreases n, 1
  {
    match n
    case Text(text) => Str(text)
    case Word(word) => Bare(word)
    case Mapping(entries) => Map(Entered(entries, map[]))
    case List(items) => Seq(Meanings(items))
  }

  function Entered(entries: seq<Entry>, m: map<string, Value>): map<string, Value>
    decreases entries, 0
  {
    if entries == [] then m else Entered(entries[1..], m[entries[0].name := Meaning(entries[0].node)])
  }

  function Meanings(items: seq<Node>): (r: seq<Value>)
    ensures |r| == |items|
    decreases items, 0
  {
    if items == [] then [] else [Meaning(items[0])] + Meanings(items[1..])
  }

  // ---- What can be written without quotes --------------------------------------------------------

  /** Text that an unquoted word (or `key`) can carry: nothing that ends it, begins something else or is dropped. */
  predicate Clean(key: bool, s: string) {
    && s != "" && Trimmed(s) && s[0] !in "\"{["
    && forall i :: 0 <= i < |s| ==> !Stops(key, s[i]) && !MayBreak(s[i])
  }

  /** Every unquoted part is clean; quoted parts may be any text at all. */
  predicate Sayable(n: Node)
    decreases n, 1
  {
    match n
    case Text(_) => true
    case Word(word) => Clean(false, word)
    case Mapping(entries) => SayableEntries(entries)
    case List(items) => SayableItems(items)
  }

  predicate SayableEntries(entries: seq<Entry>)
    decreases entries, 0
  {
    entries == []
    || ((entries[0].quoted || Clean(true, entries[0].name)) && Sayable(entries[0].node) && SayableEntries(entries[1..]))
  }

  predicate SayableItems(items: seq<Node>)
    decreases items, 0
  {
    items == [] || (Sayable(items[0]) && SayableItems(items[1..]))
  }

  /** Where a value may end: an unquoted word needs something to stop it. */
  predicate Ends(n: Node, rest: string) {
    n.Word? ==> rest == "" || Stops(false, rest[0])
  }

  lemma {:induction false} RunOver(key: bool, s: string, rest: string)
    requires forall i :: 0 <= i < |s| ==> !Stops(key, s[i])
    requires rest == "" || Stops(key, rest[0])
    ensures Run(key, s + rest) == |s|
  {
    if s == "" {
      assert s + rest == rest;
    } else {
      assert (s + rest)[1..] == s[1..] + rest;
      RunOver(key, s[1..], rest);
    }
  }

  lemma NotBlank(s: string)
    requires s != "" && s[0] != ' ' && s[0] != '\t'
    ensures SkipBlanks(s) == s && SkipBlanks(" " + s) == s
  {
    assert (" " + s)[1..] == s;
  }

  lemma KeyParses(e: Entry, rest: string)
    requires e.quoted || Clean(true, e.name)
    requires rest != "" && rest[0] == ':'
    ensures KeyFrom(PrintLabel(e) + rest) == Got(e.name, rest)
    ensures SkipBlanks(PrintLabel(e) + rest) == PrintLabel(e) + rest
    ensures (PrintLabel(e) + rest)[0] !in "},"
  {
    if e.quoted {
      QuotedRoundTrip(e.name, rest);
      NotBlank(Quoted(e.name) + rest);
    } else {
      RunOver(true, e.name, rest);
      TrimTrimmed(e.name);
      NotBlank(e.name + rest);
    }
  }

  lemma FirstChar(n: Node)
    requires Sayable(n)
    ensures Print(n) != "" && !IsSpace(Print(n)[0]) && Print(n)[0] !in ",}]"
  {
  }

  lemma WordParses(word: string, rest: string)
    requires Clean(false, word) && (rest == "" || Stops(false, rest[0]))
    ensures ValueFrom(word + rest) == Got(Bare(word), rest)
  {
    RunOver(false, word, rest);
    TrimTrimmed(word);
    NotBlank(word + rest);
  }

  lemma TextParses(text: string, rest: string)
    ensures ValueFrom(Quoted(text) + rest) == Got(Str(text), rest)
  {
    QuotedRoundTrip(text, rest);
    NotBlank(Quoted(text) + rest);
  }

  lemma OpensMap(inner: string)
    ensures ValueFrom("{" + inner) == MapFrom(inner, map[])
  {
    NotBlank("{" + inner);
    assert ("{" + inner)[1..] == inner;
    hide MapFrom, SeqFrom;
  }

  lemma OpensSeq(inner: string)
    ensures ValueFrom("[" + inner) == SeqFrom(inner, [])
  {
    NotBlank("[" + inner);
    assert ("[" + inner)[1..] == inner;
    hide MapFrom, SeqFrom;
  }

  lemma BlankFirst(s: string)
    ensures ValueFrom(" " + s) == ValueFrom(s)
  {
    assert (" " + s)[1..] == s;
    hide MapFrom, SeqFrom, QuotedFrom, Trim;
  }

  /**
   Reading undoes printing, for values nested to any depth and whatever follows them; a blank in
   front makes no difference.
   */
  lemma {:induction false} PrintParses(n: Node, rest: string)
    requires Sayable(n) && Ends(n, rest)
    ensures ValueFrom(Print(n) + rest) == Got(Meaning(n), rest)
    ensures ValueFrom(" " + Print(n) + rest) == Got(Meaning(n), rest)
    decreases n, 1
  {
    hide ValueFrom, MapFrom, SeqFrom, Stops, Clean;
    assert " " + Print(n) + rest == " " + (Print(n) + rest);
    BlankFirst(Print(n) + rest);
    match n {
      case Text(text) => TextParses(text, rest);
      case Word(word) => WordParses(word, rest);
      case Mapping(entries) =>
        EntriesParse(entries, rest, map[]);
        OpensMap(PrintEntries(entries) + "}" + rest);
        assert Print(n) + rest == "{" + (PrintEntries(entries) + "}" + rest);
      case List(items) =>
        ItemsParse(items, rest, []);
        OpensSeq(PrintItems(items) + "]" + rest);
        assert Print(n) + rest == "[" + (PrintItems(items) + "]" + rest);
        assert [] + Meanings(items) == Meanings(items);
    }
  }

  lemma CommaThenMap(s: string, m: map<string, Value>)
    ensures MapFrom(", " + s, m) == MapFrom(s, m)
  {
    assert (", " + s)[1..] == " " + s && (" " + s)[1..] == s;
    assert SkipBlanks(" " + s) == SkipBlanks(s);
  }

  lemma CommaThenSeq(s: string, items: seq<Value>)
    ensures SeqFrom(", " + s, items) == SeqFrom(s, items)
  {
    assert (", " + s)[1..] == " " + s && (" " + s)[1..] == s;
    assert SkipBlanks(" " + s) == SkipBlanks(s);
  }

  lemma CloseMap(rest: string, m: map<string, Value>)
    ensures MapFrom("}" + rest, m) == Got(Map(m), rest)
  {
    NotBlank("}" + rest);
    assert ("}" + rest)[1..] == rest;
  }

  lemma CloseSeq(rest: string, items: seq<Value>)
    ensures SeqFrom("]" + rest, items) == Got(Seq(items), rest)
  {
    NotBlank("]" + rest);
    assert ("]" + rest)[1..] == rest;
  }

  lemma MapStep(s: string, m: map<string, Value>, key: string, tail: string, value: Value, after: string)
    requires s != "" && SkipBlanks(s) == s && s[0] != '}' && s[0] != ',' && KeyFrom(s) == Got(key, tail)
    requires tail != "" && tail[0] == ':' && ValueFrom(tail[1..]) == Got(value, after)
    ensures MapFrom(s, m) == MapFrom(after, m[key := value])
  {
    assert SkipBlanks(tail) == tail;
    hide KeyFrom, ValueFrom, SkipBlanks, SeqFrom;
  }

  /** One entry is read, and the mapping goes on with what follows. */
  lemma EntryParses(e: Entry, value: Value, printed: string, after: string, m: map<string, Value>)
    requires e.quoted || Clean(true, e.name)
    requires ValueFrom(" " + printed + after) == Got(value, after)
    ensures MapFrom(PrintLabel(e) + ": " + printed + after, m) == MapFrom(after, m[e.name := value])
  {
    hide KeyFrom, ValueFrom, MapFrom, Clean, PrintLabel, SkipBlanks;
    var tail := ": " + printed + after;
    assert PrintLabel(e) + ": " + printed + after == PrintLabel(e) + tail;
    KeyParses(e, tail);
    assert tail[1..] == " " + printed + after;
    MapStep(PrintLabel(e) + tail, m, e.name, tail, value, after);
  }

  lemma {:induction false} EntriesParse(entries: seq<Entry>, rest: string, m: map<string, Value>)
    requires SayableEntries(entries)
    ensures MapFrom(PrintEntries(entries) + "}" + rest, m) == Got(Map(Entered(entries, m)), rest)
    decreases entries, 0
  {
    hide ValueFrom, MapFrom, PrintLabel, Sayable, Print, Meaning, Clean, MoreEntries;
    if entries == [] {
      CloseMap(rest, m);
      assert PrintEntries(entries) + "}" + rest == "}" + rest;
    } else {
      var e, more := entries[0], MoreEntries(entries[1..]) + "}" + rest;
      MoreEntriesParse(entries[1..], rest, m[e.name := Meaning(e.node)]);
      MoreEntriesStop(entries[1..], rest);
      PrintParses(e.node, more);
      EntryParses(e, Meaning(e.node), Print(e.node), more, m);
      assert PrintEntries(entries) + "}" + rest == PrintLabel(e) + ": " + Print(e.node) + more;
    }
  }

  lemma {:induction false} MoreEntriesParse(entries: seq<Entry>, rest: string, m: map<string, Value>)
    requires SayableEntries(entries)
    ensures MapFrom(MoreEntries(entries) + "}" + rest, m) == Got(Map(Entered(entries, m)), rest)
    decreases entries, 1
  {
    hide MapFrom, PrintEntries, SayableEntries;
    if entries == [] {
      CloseMap(rest, m);
      assert MoreEntries(entries) + "}" + rest == "}" + rest;
    } else {
      EntriesParse(entries, rest, m);
      CommaThenMap(PrintEntries(entries) + "}" + rest, m);
      assert MoreEntries(entries) + "}" + rest == ", " + (PrintEntries(entries) + "}" + rest);
    }
  }

  lemma MoreEntriesStop(entries: seq<Entry>, rest: string)
    ensures Stops(false, (MoreEntries(entries) + "}" + rest)[0])
  {
  }

  /** One item is read, and the sequence goes on with what follows. */
  lemma ItemParses(n: Node, after: string, items: seq<Value>)
    requires Sayable(n) && ValueFrom(Print(n) + after) == Got(Meaning(n), after)
    ensures SeqFrom(Print(n) + after, items) == SeqFrom(after, items + [Meaning(n)])
  {
    FirstChar(n);
    NotBlank(Print(n) + after);
  }

  lemma {:induction false} ItemsParse(items: seq<Node>, rest: string, done: seq<Value>)
    requires SayableItems(items)
    ensures SeqFrom(PrintItems(items) + "]" + rest, done) == Got(Seq(done + Meanings(items)), rest)
    decreases items, 0
  {
    hide ValueFrom, SeqFrom, Sayable, Print, Meaning, MoreItems;
    if items == [] {
      CloseSeq(rest, done);
      assert PrintItems(items) + "]" + rest == "]" + rest;
      assert done + Meanings(items) == done;
    } else {
      var n, more := items[0], MoreItems(items[1..]) + "]" + rest;
      MoreItemsParse(items[1..], rest, done + [Meaning(n)]);
      MoreItemsStop(items[1..], rest);
      PrintParses(n, more);
      ItemParses(n, more, done);
      assert PrintItems(items) + "]" + rest == Print(n) + more;
      assert done + Meanings(items) == done + [Meaning(n)] + Meanings(items[1..]);
    }
  }

  lemma {:induction false} MoreItemsParse(items: seq<Node>, rest: string, done: seq<Value>)
    requires SayableItems(items)
    ensures SeqFrom(MoreItems(items) + "]" + rest, done) == Got(Seq(done + Meanings(items)), rest)
    decreases items, 1
  {
    hide SeqFrom, PrintItems, SayableItems;
    if items == [] {
      CloseSeq(rest, done);
      assert MoreItems(items) + "]" + rest == "]" + rest;
      assert done + Meanings(items) == done;
    } else {
      ItemsParse(items, rest, done);
      CommaThenSeq(PrintItems(items) + "]" + rest, done);
      assert MoreItems(items) + "]" + rest == ", " + (PrintItems(items) + "]" + rest);
    }
  }

  lemma MoreItemsStop(items: seq<Node>, rest: string)
    ensures Stops(false, (MoreItems(items) + "]" + rest)[0])
  {
  }

  /** A printed value is one line, and a line's trimming leaves it alone. */
  lemma {:induction false} PrintsOnOneLine(n: Node)
    requires Sayable(n)
    ensures OneLine(Print(n)) && Print(n) != "" && !IsSpace(Print(n)[|Print(n)| - 1])
    decreases n, 1
  {
    match n {
      case Text(text) => EscapedStaysOnOneLine(text);
      case Word(word) =>
      case Mapping(entries) => EntriesOnOneLine(entries);
      case List(items) => ItemsOnOneLine(items);
    }
  }

  predicate OneLine(s: string) {
    forall i :: 0 <= i < |s| ==> !MayBreak(s[i])
  }

  lemma {:induction false} EntriesOnOneLine(entries: seq<Entry>)
    requires SayableEntries(entries)
    ensures OneLine(PrintEntries(entries))
    decreases entries, 0
  {
    if entries != [] {
      PrintsOnOneLine(entries[0].node);
      EntriesOnOneLine(entries[1..]);
      EscapedStaysOnOneLine(entries[0].name);
      assert OneLine(PrintLabel(entries[0]));
      assert OneLine(": ") && OneLine(", ");
    }
  }

  lemma {:induction false} ItemsOnOneLine(items: seq<Node>)
    requires SayableItems(items)
    ensures OneLine(PrintItems(items))
    decreases items, 0
  {
    if items != [] {
      PrintsOnOneLine(items[0]);
      ItemsOnOneLine(items[1..]);
      assert OneLine(", ");
    }
  }
}
