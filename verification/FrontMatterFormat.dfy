/** The format word by word: what each line says, how text is escaped, and what a reader refuses. */
module FrontMatterFormat {
  import opened Text
  import opened YamlScalar
  import opened FlowScanner
  import opened FlowPrinter
  import opened FieldNames
  import opened FrontMatter

  // ---- What is written ---------------------------------------------------------------------------

  /** Text without anything special in it is written as it is. */
  lemma {:induction false} PlainTextKept(s: string)
    requires forall i :: 0 <= i < |s| ==> !MayBreak(s[i]) && s[i] != '\\' && s[i] != '"'
    ensures Quoted(s) == "\"" + s + "\"" && Escape(s) == s
  {
    if s != "" {
      PlainTextKept(s[1..]);
      assert EscapeChar(s[0]) == [s[0]] && s == [s[0]] + s[1..];
    }
  }

  /** And this is how everything else is. */
  lemma SpecialsEscaped()
    ensures EscapeChar('"') == "\\\"" && EscapeChar('\\') == "\\\\" && EscapeChar('\n') == "\\n" && EscapeChar('\r') == "\\r"
    ensures EscapeChar('\t') == "\\t" && EscapeChar('\U{85}') == "\\N" && EscapeChar('\U{2028}') == "\\L"
    ensures EscapeChar('\U{2029}') == "\\P" && EscapeChar('\U{0}') == "\\x00" && EscapeChar('\U{1f}') == "\\x1f"
    ensures EscapeChar('\U{7f}') == "\\x7f"
  {
  }

  /** Several texts with a comma and a blank between them. */
  function Commas(parts: seq<string>): string {
    if parts == [] then "" else if |parts| == 1 then parts[0] else parts[0] + ", " + Commas(parts[1..])
  }

  function EntryTexts(entries: seq<Entry>): (r: seq<string>)
    ensures |r| == |entries| && forall i :: 0 <= i < |r| ==> r[i] == PrintLabel(entries[i]) + ": " + Print(entries[i].node)
  {
    seq(|entries|, i requires 0 <= i < |entries| => PrintLabel(entries[i]) + ": " + Print(entries[i].node))
  }

  function ItemTexts(items: seq<Node>): (r: seq<string>)
    ensures |r| == |items| && forall i :: 0 <= i < |r| ==> r[i] == Print(items[i])
  {
    seq(|items|, i requires 0 <= i < |items| => Print(items[i]))
  }

  lemma {:induction false} EntriesText(entries: seq<Entry>)
    ensures PrintEntries(entries) == Commas(EntryTexts(entries))
  {
    hide Print, PrintLabel;
    if entries != [] {
      var (first, rest) := (PrintLabel(entries[0]) + ": " + Print(entries[0].node), entries[1..]);
      assert EntryTexts(entries)[1..] == EntryTexts(rest);
      EntriesText(rest);
      assert rest == [] ==> first + "" == first;
      assert rest != [] ==> first + (", " + PrintEntries(rest)) == first + ", " + PrintEntries(rest);
    }
  }

  lemma {:induction false} ItemsText(items: seq<Node>)
    ensures PrintItems(items) == Commas(ItemTexts(items))
  {
    hide Print;
    if items != [] {
      var (first, rest) := (Print(items[0]), items[1..]);
      assert ItemTexts(items)[1..] == ItemTexts(rest);
      ItemsText(rest);
      assert rest == [] ==> first + "" == first;
      assert rest != [] ==> first + (", " + PrintItems(rest)) == first + ", " + PrintItems(rest);
    }
  }

  /** A mapping and a list, as text. */
  lemma FlowText(entries: seq<Entry>, items: seq<Node>)
    ensures Print(Mapping(entries)) == "{" + Commas(EntryTexts(entries)) + "}"
    ensures Print(List(items)) == "[" + Commas(ItemTexts(items)) + "]"
  {
    EntriesText(entries);
    ItemsText(items);
  }

  function Pair(name: string, text: string): string {
    name + ": " + text
  }

  lemma FieldText(entries: seq<Entry>, i: nat, n: Name, node: Node, name: string, text: string)
    requires i < |entries| && entries[i] == Field(n, node) && NameText(n) == name && Print(node) == text
    ensures EntryTexts(entries)[i] == Pair(name, text)
  {
  }

  lemma NumberText(entries: seq<Entry>, i: nat, n: Name, number: U64, name: string)
    requires i < |entries| && entries[i] == Field(n, Number(number)) && NameText(n) == name
    ensures EntryTexts(entries)[i] == Pair(name, NatText(number))
  {
  }

  lemma QuotedText(entries: seq<Entry>, i: nat, n: Name, text: string, name: string)
    requires i < |entries| && entries[i] == Field(n, Node.Text(text)) && NameText(n) == name
    ensures EntryTexts(entries)[i] == Pair(name, Quoted(text))
  {
  }

  lemma FieldsText(entries: seq<Entry>, texts: seq<string>)
    requires |texts| == |entries| && forall i :: 0 <= i < |texts| ==> texts[i] == EntryTexts(entries)[i]
    ensures Print(Mapping(entries)) == Flow(texts)
  {
    FlowText(entries, []);
    assert texts == EntryTexts(entries);
  }

  function QuotedAll(texts: seq<string>): (r: seq<string>)
    ensures |r| == |texts| && forall i :: 0 <= i < |r| ==> r[i] == Quoted(texts[i])
  {
    seq(|texts|, i requires 0 <= i < |texts| => Quoted(texts[i]))
  }

  function Flow(parts: seq<string>): string {
    "{" + Commas(parts) + "}"
  }

  function Listed(parts: seq<string>): string {
    "[" + Commas(parts) + "]"
  }

  function KindText(k: AnchorKind): string {
    match k case BySeq => "seq" case ByBookmark => "bookmark" case ByTraceId => "trace_id"
  }

  function VerdictText(v: Evidence): string {
    match v case Complete => "complete" case Evicted => "evicted" case Filtered => "filtered" case CannotVerify => "cannot_verify"
  }

  lemma TextsText(texts: seq<string>)
    ensures Print(List(TextList(texts))) == Listed(QuotedAll(texts))
  {
    FlowText([], TextList(texts));
    assert ItemTexts(TextList(texts)) == QuotedAll(texts);
  }

  lemma AnchorText<T>(codec: Codec<T>, c: Capture<T>)
    ensures Print(AnchorNode(codec, c)) ==
              Flow([Pair("kind", KindText(c.anchorKind)), Pair("value", Quoted(c.anchorLabel)), Pair("seq", NatText(c.anchorSeq)),
                    Pair("at", Quoted(codec.show(c.anchorAt)))])
  {
    var entries := AnchorNode(codec, c).entries;
    assert NameText(Kind) == "kind" && NameText(Name.Value) == "value" && NameText(Name.Seq) == "seq" && NameText(At) == "at";
    assert Print(Word(KindWord(c.anchorKind))) == KindText(c.anchorKind);
    hide Print, PrintLabel, EntryTexts, Pair, Commas, Flow, NatText, Quoted, NameText, Field, Number, KindText, KindWord;
    FieldText(entries, 0, Kind, Word(KindWord(c.anchorKind)), "kind", KindText(c.anchorKind));
    QuotedText(entries, 1, Name.Value, c.anchorLabel, "value");
    NumberText(entries, 2, Name.Seq, c.anchorSeq, "seq");
    QuotedText(entries, 3, At, codec.show(c.anchorAt), "at");
    FieldsText(entries, [Pair("kind", KindText(c.anchorKind)), Pair("value", Quoted(c.anchorLabel)),
                         Pair("seq", NatText(c.anchorSeq)), Pair("at", Quoted(codec.show(c.anchorAt)))]);
  }

  lemma RangeText(r: SeqRange)
    ensures Print(RangeNode(r)) ==
              Flow([Pair("from", NatText(r.from)), Pair("to", NatText(r.to)), Pair("requested_before_missing", NatText(r.missingBefore)),
                    Pair("requested_after_missing", NatText(r.missingAfter)), Pair("clamped", if r.clamped then "true" else "false")])
  {
    var entries := RangeNode(r).entries;
    assert NameText(From) == "from" && NameText(To) == "to" && NameText(Clamped) == "clamped";
    assert NameText(RequestedBeforeMissing) == "requested_before_missing";
    assert NameText(RequestedAfterMissing) == "requested_after_missing";
    assert Print(Word(BoolWord(r.clamped))) == if r.clamped then "true" else "false";
    hide Print, PrintLabel, EntryTexts, Pair, Commas, Flow, NatText, Quoted, NameText, Field, Number, BoolWord;
    NumberText(entries, 0, From, r.from, "from");
    NumberText(entries, 1, To, r.to, "to");
    NumberText(entries, 2, RequestedBeforeMissing, r.missingBefore, "requested_before_missing");
    NumberText(entries, 3, RequestedAfterMissing, r.missingAfter, "requested_after_missing");
    FieldText(entries, 4, Clamped, Word(BoolWord(r.clamped)), "clamped", if r.clamped then "true" else "false");
    FieldsText(entries, [Pair("from", NatText(r.from)), Pair("to", NatText(r.to)),
                         Pair("requested_before_missing", NatText(r.missingBefore)),
                         Pair("requested_after_missing", NatText(r.missingAfter)),
                         Pair("clamped", if r.clamped then "true" else "false")]);
  }

  lemma CountsText(c: SourceCounts)
    ensures Print(CountsNode(c)) ==
              Flow([Pair("filter", NatText(c.filter)), Pair("pre_trigger", NatText(c.preTrigger)), Pair("post_trigger", NatText(c.postTrigger))])
  {
    var entries := CountsNode(c).entries;
    assert NameText(Filter) == "filter" && NameText(PreTrigger) == "pre_trigger" && NameText(PostTrigger) == "post_trigger";
    hide Print, PrintLabel, EntryTexts, Pair, Commas, Flow, NatText, Quoted, NameText, Field, Number;
    NumberText(entries, 0, Filter, c.filter, "filter");
    NumberText(entries, 1, PreTrigger, c.preTrigger, "pre_trigger");
    NumberText(entries, 2, PostTrigger, c.postTrigger, "post_trigger");
    FieldsText(entries, [Pair("filter", NatText(c.filter)), Pair("pre_trigger", NatText(c.preTrigger)),
                         Pair("post_trigger", NatText(c.postTrigger))]);
  }

  function FileParts(f: FileRef): seq<string> {
    [Pair("file", Quoted(f.file)), Pair("records", NatText(f.records))]
    + match f.bySource
      case None => []
      case Some(c) =>
        [Pair("by_source", Flow([Pair("filter", NatText(c.filter)), Pair("pre_trigger", NatText(c.preTrigger)), Pair("post_trigger", NatText(c.postTrigger))]))]
  }

  lemma FileText(f: FileRef)
    ensures Print(FileNode(f)) == Flow(FileParts(f))
  {
    var entries := FileNode(f).entries;
    assert NameText(File) == "file" && NameText(Records) == "records" && NameText(BySource) == "by_source";
    hide Print, PrintLabel, EntryTexts, Pair, Commas, Flow, NatText, Quoted, NameText, Field, Number, CountsNode;
    QuotedText(entries, 0, File, f.file, "file");
    NumberText(entries, 1, Records, f.records, "records");
    if f.bySource.Some? {
      CountsText(f.bySource.value);
      FieldText(entries, 2, BySource, CountsNode(f.bySource.value), "by_source", Print(CountsNode(f.bySource.value)));
    }
    FieldsText(entries, FileParts(f));
  }

  function SpanPart(n: NarrowedSpan): string {
    Flow([Pair("from", NatText(n.from)), Pair("to", NatText(n.to)), Pair("filters", Listed(QuotedAll(n.filters)))])
  }

  lemma SpanText(n: NarrowedSpan)
    ensures Print(SpanNode(n)) == SpanPart(n)
  {
    var entries := SpanNode(n).entries;
    assert NameText(From) == "from" && NameText(To) == "to" && NameText(Filters) == "filters";
    TextsText(n.filters);
    hide Print, PrintLabel, EntryTexts, Pair, Commas, Flow, NatText, Quoted, NameText, Field, Number, Listed, TextList, QuotedAll;
    NumberText(entries, 0, From, n.from, "from");
    NumberText(entries, 1, To, n.to, "to");
    FieldText(entries, 2, Filters, List(TextList(n.filters)), "filters", Listed(QuotedAll(n.filters)));
    FieldsText(entries, [Pair("from", NatText(n.from)), Pair("to", NatText(n.to)), Pair("filters", Listed(QuotedAll(n.filters)))]);
  }

  function SpanParts(spans: seq<NarrowedSpan>): (r: seq<string>)
    ensures |r| == |spans| && forall i :: 0 <= i < |r| ==> r[i] == SpanPart(spans[i])
  {
    seq(|spans|, i requires 0 <= i < |spans| => SpanPart(spans[i]))
  }

  lemma SpansText(spans: seq<NarrowedSpan>)
    ensures Print(List(SpanNodes(spans))) == Listed(SpanParts(spans))
  {
    FlowText([], SpanNodes(spans));
    hide Commas, SpanPart, SpanNode, Print;
    forall i | 0 <= i < |spans|
      ensures Print(SpanNode(spans[i])) == SpanPart(spans[i])
    {
      SpanText(spans[i]);
    }
    assert ItemTexts(SpanNodes(spans)) == SpanParts(spans);
  }

  function FactParts(facts: seq<ScopedFact>): (r: seq<string>)
    ensures |r| == |facts| && forall i :: 0 <= i < |r| ==> r[i] == Quoted(facts[i].key) + ": " + Quoted(facts[i].value)
  {
    seq(|facts|, i requires 0 <= i < |facts| => Quoted(facts[i].key) + ": " + Quoted(facts[i].value))
  }

  lemma FactsText(facts: seq<ScopedFact>)
    ensures Print(Mapping(AssertedEntries(facts))) == Flow(FactParts(facts))
  {
    FlowText(AssertedEntries(facts), []);
    hide Commas;
    assert EntryTexts(AssertedEntries(facts)) == FactParts(facts);
  }

  /** Of the core keys, in their order, those that `held` has or lacks. */
  function Chosen(keys: seq<string>, registry: seq<string>, held: bool): seq<string> {
    if keys == [] then []
    else if (keys[0] in registry) == held then [keys[0]] + Chosen(keys[1..], registry, held)
    else Chosen(keys[1..], registry, held)
  }

  lemma {:induction false} ChosenAre(keys: seq<string>, registry: seq<string>)
    ensures |Chosen(keys, registry, true)| + |Chosen(keys, registry, false)| == |keys|
    ensures forall k :: k in Chosen(keys, registry, true) <==> k in keys && k in registry
    ensures forall k :: k in Chosen(keys, registry, false) <==> k in keys && k !in registry
    ensures MissingCore(registry, keys) == Chosen(keys, registry, false)
  {
    if keys != [] {
      ChosenAre(keys[1..], registry);
      assert keys == [keys[0]] + keys[1..];
    }
  }

  /** The coverage that is reported: the core keys the registry lacks, in their order, and how many there are of the others. */
  lemma CoverageIs(registry: seq<string>)
    ensures var p := Coverage(registry);
      && p.missing == Chosen(CORE_KEYS, registry, false)
      && p.core == NatText(|Chosen(CORE_KEYS, registry, true)|) + " of 3"
  {
    ChosenAre(CORE_KEYS, registry);
    assert NatText(3) == "3";
    hide NatText;
    assert forall s: string :: s + " of " + "3" == s + " of 3";
  }

  lemma ProvenanceText(p: Provenance)
    ensures Print(ProvenanceNode(p)) == Flow([Pair("core", Quoted(p.core)), Pair("missing", Listed(QuotedAll(p.missing)))])
  {
    var entries := ProvenanceNode(p).entries;
    assert NameText(Core) == "core" && NameText(Missing) == "missing";
    TextsText(p.missing);
    hide Print, PrintLabel, EntryTexts, Pair, Commas, Flow, Quoted, NameText, Field, Listed, TextList, QuotedAll;
    QuotedText(entries, 0, Core, p.core, "core");
    FieldText(entries, 1, Missing, List(TextList(p.missing)), "missing", Listed(QuotedAll(p.missing)));
    FieldsText(entries, [Pair("core", Quoted(p.core)), Pair("missing", Listed(QuotedAll(p.missing)))]);
  }

  // ---- The whole front matter --------------------------------------------------------------------

  /** What is written after a key, if anything is. */
  function Spelled<T>(codec: Codec<T>, c: Capture<T>, key: Name): Option<string> {
    match key
    case Case => Some(c.stem)
    case LogmonFormat => Some("1")
    case CapturedAt => Some(Quoted(codec.show(c.capturedAt)))
    case Domain => Some(Quoted(c.domain))
    case Incarnation => Some(match c.incarnation case Some(v) => Quoted(v) case None => "null")
    case Reason => Some(Quoted(c.reason))
    case Anchor =>
      Some(Flow([Pair("kind", KindText(c.anchorKind)), Pair("value", Quoted(c.anchorLabel)), Pair("seq", NatText(c.anchorSeq)),
                 Pair("at", Quoted(codec.show(c.anchorAt)))]))
    case Headline => Some(Quoted(c.message))
    case Verdict => Some(VerdictText(c.verdict))
    case SeqRange =>
      Some(Flow([Pair("from", NatText(c.window.from)), Pair("to", NatText(c.window.to)),
                 Pair("requested_before_missing", NatText(c.window.missingBefore)),
                 Pair("requested_after_missing", NatText(c.window.missingAfter)),
                 Pair("clamped", if c.window.clamped then "true" else "false")]))
    case Logdata => if c.logdata.Some? then Some(Flow(FileParts(c.logdata.value))) else None
    case Spandata => if c.spandata.Some? then Some(Flow(FileParts(c.spandata.value))) else None
    case NarrowedBy => Some(Listed(SpanParts(c.narrowedBy)))
    case Provenance =>
      Some(Flow([Pair("core", Quoted(NatText(|Chosen(CORE_KEYS, c.registry, true)|) + " of 3")),
                 Pair("missing", Listed(QuotedAll(Chosen(CORE_KEYS, c.registry, false))))]))
    case Asserted => Some(Flow(FactParts(c.asserted)))
    case _ => None
  }

  lemma NodeSpelled<T>(codec: Codec<T>, c: Capture<T>, key: Name)
    ensures NodeFor(codec, c, key).Some? <==> Spelled(codec, c, key).Some?
    ensures NodeFor(codec, c, key).Some? ==> Print(NodeFor(codec, c, key).value) == Spelled(codec, c, key).value
  {
    hide AnchorNode, RangeNode, FileNode, SpanNodes, ProvenanceNode, AssertedEntries, Flow, Listed, Coverage, FileParts, SpanParts,
      FactParts, Chosen, Quoted;
    match key {
      case LogmonFormat => assert NatText(FORMAT_VERSION) == "1";
      case Anchor => AnchorText(codec, c);
      case SeqRange => RangeText(c.window);
      case Logdata => if c.logdata.Some? { FileText(c.logdata.value); }
      case Spandata => if c.spandata.Some? { FileText(c.spandata.value); }
      case NarrowedBy => SpansText(c.narrowedBy);
      case Provenance =>
        CoverageIs(c.registry);
        ProvenanceText(Coverage(c.registry));
      case Asserted => FactsText(c.asserted);
      case _ =>
    }
  }

  /** The keys, as they are written and in this order. */
  const KEYS := [
    "case", "logmon_format", "captured_at", "domain", "incarnation", "reason", "anchor", "headline",
    "verdict", "seq_range", "logdata", "spandata", "narrowed_by", "provenance", "asserted"]

  lemma KeysInOrder(i: nat)
    requires i < |ORDER|
    ensures |ORDER| == |KEYS| && NameText(ORDER[i]) == KEYS[i]
  {
  }

  function KeyLines<T>(codec: Codec<T>, c: Capture<T>, keys: seq<Name>): string {
    if keys == [] then ""
    else
      var rest := KeyLines(codec, c, keys[1..]);
      match Spelled(codec, c, keys[0]) case None => rest case Some(text) => NameText(keys[0]) + ": " + text + "\n" + rest
  }

  lemma {:induction false} LinesSpelled<T>(codec: Codec<T>, c: Capture<T>, keys: seq<Name>)
    ensures PrintLines(Lines(codec, c, keys)) == KeyLines(codec, c, keys)
  {
    if keys != [] {
      NodeSpelled(codec, c, keys[0]);
      LinesSpelled(codec, c, keys[1..]);
      hide NodeFor, Spelled, NameText;
      if NodeFor(codec, c, keys[0]).Some? {
        var (l, rest) := (Line(keys[0], NodeFor(codec, c, keys[0]).value), Lines(codec, c, keys[1..]));
        assert ([l] + rest)[1..] == rest;
      }
    }
  }

  /** The front matter of a capture, spelled out. */
  lemma FrontMatterSpelled<T>(codec: Codec<T>, c: Capture<T>)
    ensures FrontMatterText(codec, c) == "---\n" + KeyLines(codec, c, ORDER) + "---\n\n"
  {
    LinesSpelled(codec, c, ORDER);
  }

  // ---- What is refused ---------------------------------------------------------------------------

  /** The escapes that are read: those written, and `\xHH` for any byte. */
  lemma EscapeRefused(c: char, rest: string)
    ensures UnescapeHead("\\" + [c] + rest).Bad? <==>
              c !in "\\\"nrtNLP" && (c != 'x' || |rest| < 2 || HexByte(rest[0], rest[1]).None?)
  {
    var s := "\\" + [c] + rest;
    assert s[1] == c && (|rest| >= 2 ==> s[2] == rest[0] && s[3] == rest[1]);
  }

  /** A quote that is not closed is refused. */
  lemma {:induction false} UnclosedQuote(s: string)
    requires '"' !in s
    ensures RawUpTo(s) == None && QuotedFrom("\"" + s) == Bad(Unterminated)
  {
    if s != "" {
      UnclosedQuote(s[1..]);
      if s[0] == '\\' && |s| > 1 {
        UnclosedQuote(s[2..]);
      }
    }
    assert ("\"" + s)[1..] == s;
  }

  /** A document of a newer format is refused, whatever else it says. */
  lemma NewerRefused<T>(codec: Codec<T>, top: map<string, Value>, text: string, n: nat)
    requires "logmon_format" in top && top["logmon_format"] in {Bare(text), Str(text)} && ParseU64(text) == Some(n)
    requires n > FORMAT_VERSION
    ensures Interpret(codec, top) == Failure(FormatTooNew(if n > MAX_U32 then MAX_U32 else n))
  {
    assert NameText(LogmonFormat) == "logmon_format";
    hide ParseU64;
  }

  const REQUIRED: seq<Name> := [
    Case, LogmonFormat, CapturedAt, Domain, Incarnation, Reason, Anchor, Headline, Verdict, Name.SeqRange, Name.Provenance]

  /** What an accepted document has, and what it may lack: evidence, the narrowing filters and the asserted facts. */
  lemma AcceptedHas<T>(codec: Codec<T>, top: map<string, Value>)
    requires Interpret(codec, top).Success?
    ensures forall n :: n in REQUIRED ==> NameText(n) in top
    ensures var d := Interpret(codec, top).value;
      && d.format <= FORMAT_VERSION
      && (d.logdata.None? <==> NameText(Logdata) !in top) && (d.spandata.None? <==> NameText(Spandata) !in top)
      && (d.narrowedBy.None? <==> NameText(NarrowedBy) !in top) && (NameText(Asserted) !in top ==> d.asserted == map[])
  {
    hide NameText, ReadAnchor, ReadRange, ReadProvenance, AsU64, AsText, ReadVerdict, AsTime, AsMap, ReadBySource, TextSub, U64Sub, ReadSpans;
  }

  /** Without an opening fence nothing is read. */
  lemma UnfencedRefused<T>(codec: Codec<T>, doc: string)
    requires !("---\n" <= doc)
    ensures ParsedFrontMatter(codec, doc) == Failure(NoFrontMatter)
  {
  }

  /** A line without a colon is refused, and says which line it was. */
  lemma ColonlessRefused(number: nat, line: string)
    requires ':' !in line
    ensures ReadLine(number, line) == Failure(MalformedLine(number, line))
  {
  }

  /** Blanks between tokens are spaces and tabs, and all of them are passed over. */
  lemma {:induction false} BlanksPassed(s: string)
    ensures var r := SkipBlanks(s);
      && r == s[|s| - |r|..] && (forall i :: 0 <= i < |s| - |r| ==> s[i] == ' ' || s[i] == '\t')
      && (r != "" ==> r[0] != ' ' && r[0] != '\t')
  {
    if s != "" && (s[0] == ' ' || s[0] == '\t') {
      BlanksPassed(s[1..]);
    }
  }

  /** The three core keys, as they are listed when a capture has none of them. */
  lemma CoreKeysAre(registry: seq<string>)
    requires forall k :: k in registry ==> k !in {"/Build/commit", "/Build/profile", "/Action"}
    ensures Coverage(registry).core == "0 of 3"
    ensures Coverage(registry).missing == ["/Build/commit", "/Build/profile", "/Action"]
  {
    assert CORE_KEYS[1..] == ["/Build/profile", "/Action"] && CORE_KEYS[2..] == ["/Action"] && CORE_KEYS[1..][1..] == CORE_KEYS[2..];
    assert "/Build/commit" !in registry && "/Build/profile" !in registry && "/Action" !in registry;
    assert MissingCore(registry, CORE_KEYS[2..]) == ["/Action"];
    assert MissingCore(registry, CORE_KEYS[1..]) == ["/Build/profile"] + ["/Action"];
    assert MissingCore(registry, CORE_KEYS) == ["/Build/commit"] + (["/Build/profile"] + ["/Action"]);
    assert NatText(0) == "0" && NatText(3) == "3" && "0" + " of " + "3" == "0 of 3";
  }
}
