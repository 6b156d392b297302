/** Reading a printed document gives back what the capture held. */
module FrontMatterRoundTrip {
  import opened Text
  import opened FlowScanner
  import opened FlowPrinter
  import opened FieldNames
  import opened FrontMatter
  import opened FrontMatterLines

  // ---- Looking fields up -------------------------------------------------------------------------

  lemma {:induction false} EnteredKeeps(entries: seq<Entry>, names: seq<Name>, m: map<string, Value>, n: Name)
    requires OfFields(entries, names) && n !in names
    ensures NameText(n) in Entered(entries, m) <==> NameText(n) in m
    ensures NameText(n) in m ==> Entered(entries, m)[NameText(n)] == m[NameText(n)]
  {
    hide NameText, Meaning;
    if entries != [] {
      if NameText(names[0]) == NameText(n) { NamesDistinct(names[0], n); }
      assert entries[0] == Field(names[0], entries[0].node);
      EnteredKeeps(entries[1..], names[1..], m[entries[0].name := Meaning(entries[0].node)], n);
    }
  }

  lemma {:induction false} EnteredHas(entries: seq<Entry>, names: seq<Name>, m: map<string, Value>, j: nat)
    requires OfFields(entries, names) && j < |names| && names[j] !in names[j + 1..]
    ensures NameText(names[j]) in Entered(entries, m)
    ensures Entered(entries, m)[NameText(names[j])] == Meaning(entries[j].node)
  {
    hide NameText, Meaning;
    assert entries[0] == Field(names[0], entries[0].node);
    var m' := m[entries[0].name := Meaning(entries[0].node)];
    if j == 0 {
      EnteredKeeps(entries[1..], names[1..], m', names[0]);
    } else {
      assert names[1..][j - 1 + 1..] == names[j + 1..];
      EnteredHas(entries[1..], names[1..], m', j - 1);
    }
  }

  /** The mapping holds `node` under `n`. */
  ghost predicate Holds(m: map<string, Value>, n: Name, node: Node) {
    NameText(n) in m && m[NameText(n)] == Meaning(node)
  }

  lemma TextHeld(m: map<string, Value>, key: Name, n: Name, text: string)
    requires Holds(m, n, Node.Text(text)) || Holds(m, n, Word(text))
    ensures TextSub(m, key, n) == Success(text) && TakeText(m, n) == Success(text)
  {
  }

  lemma NumberHeld(m: map<string, Value>, key: Name, n: Name, number: U64)
    requires Holds(m, n, Number(number))
    ensures U64Sub(m, key, n) == Success(number)
  {
    U64RoundTrip(number);
  }

  lemma {:induction false} TextsRead(texts: seq<string>, key: Name)
    ensures AsTexts(Meanings(TextList(texts)), key) == Success(texts)
  {
    if texts != [] {
      TextsRead(texts[1..], key);
      assert TextList(texts)[1..] == TextList(texts[1..]);
      assert Meanings(TextList(texts))[1..] == Meanings(TextList(texts[1..]));
      assert [texts[0]] + texts[1..] == texts;
    }
  }

  lemma TextsHeld(m: map<string, Value>, key: Name, n: Name, texts: seq<string>)
    requires Holds(m, n, List(TextList(texts)))
    ensures ReadTextsSub(m, key, n) == Success(texts)
  {
    TextsRead(texts, key);
  }

  // ---- Reading each mapping back -----------------------------------------------------------------

  lemma CountsRead(c: SourceCounts, key: Name)
    ensures ReadCounts(Meaning(CountsNode(c)), key) == Success(c)
  {
    var es, names := CountsNode(c).entries, [Filter, PreTrigger, PostTrigger];
    var m := Entered(es, map[]);
    assert Meaning(CountsNode(c)) == Map(m);
    hide NameText, Entered, Meaning, Number;
    EnteredHas(es, names, map[], 0);
    EnteredHas(es, names, map[], 1);
    EnteredHas(es, names, map[], 2);
    NumberHeld(m, key, Filter, c.filter);
    NumberHeld(m, key, PreTrigger, c.preTrigger);
    NumberHeld(m, key, PostTrigger, c.postTrigger);
    hide U64Sub;
  }

  lemma BySourceRead(f: FileRef, key: Name)
    ensures ReadBySource(Entered(FileNode(f).entries, map[]), key) == Success(f.bySource)
  {
    var es, names := FileNode(f).entries, FileFields(f);
    if f.bySource.Some? {
      CountsRead(f.bySource.value, key);
      hide NameText, Entered, Meaning, Number, CountsNode;
      EnteredHas(es, names, map[], 2);
    } else {
      hide NameText, Entered, Meaning, Number, CountsNode;
      EnteredKeeps(es, names, map[], BySource);
    }
  }

  lemma FileRead(top: map<string, Value>, key: Name, f: FileRef)
    requires Holds(top, key, FileNode(f))
    ensures ReadFile(top, key) == Success(Some(f))
  {
    var es, names := FileNode(f).entries, FileFields(f);
    var m := Entered(es, map[]);
    BySourceRead(f, key);
    assert Meaning(FileNode(f)) == Map(m);
    hide NameText, Entered, Meaning, Number, CountsNode;
    EnteredHas(es, names, map[], 0);
    EnteredHas(es, names, map[], 1);
    TextHeld(m, key, File, f.file);
    NumberHeld(m, key, Records, f.records);
    hide U64Sub, TextSub, ReadBySource, FileNode;
  }

  lemma RangeRead(r: SeqRange)
    ensures ReadRange(Meaning(RangeNode(r))) == Success(r)
  {
    var es := RangeNode(r).entries;
    var m := Entered(es, map[]);
    assert Meaning(RangeNode(r)) == Map(m);
    var key := Name.SeqRange;
    FlagHeld(r.clamped);
    hide NameText, Entered, Number, BoolWord;
    EnteredHas(es, RANGE_FIELDS, map[], 0);
    EnteredHas(es, RANGE_FIELDS, map[], 1);
    EnteredHas(es, RANGE_FIELDS, map[], 2);
    EnteredHas(es, RANGE_FIELDS, map[], 3);
    EnteredHas(es, RANGE_FIELDS, map[], 4);
    NumberHeld(m, key, From, r.from);
    NumberHeld(m, key, To, r.to);
    NumberHeld(m, key, RequestedBeforeMissing, r.missingBefore);
    NumberHeld(m, key, RequestedAfterMissing, r.missingAfter);
    assert Holds(m, Clamped, Word(BoolWord(r.clamped)));
    assert Sub(m, key, Clamped) == Success(Bare(BoolWord(r.clamped)));
    hide U64Sub, Sub, Meaning, RangeNode, AsBool;
  }

  lemma FlagHeld(b: bool)
    ensures AsBool(Bare(BoolWord(b)), Name.SeqRange) == Success(b)
  {
  }

  lemma AnchorRead<T(!new)>(codec: Codec<T>, c: Capture<T>)
    requires Faithful(codec)
    ensures ReadAnchor(codec, Meaning(AnchorNode(codec, c))) ==
            Success(AnchorRef(KindWord(c.anchorKind), c.anchorLabel, c.anchorSeq, c.anchorAt))
  {
    var es := AnchorNode(codec, c).entries;
    var m := Entered(es, map[]);
    assert Meaning(AnchorNode(codec, c)) == Map(m);
    hide NameText, Entered, Number, KindWord;
    EnteredHas(es, ANCHOR_FIELDS, map[], 0);
    EnteredHas(es, ANCHOR_FIELDS, map[], 1);
    EnteredHas(es, ANCHOR_FIELDS, map[], 2);
    EnteredHas(es, ANCHOR_FIELDS, map[], 3);
    TextHeld(m, Anchor, Kind, KindWord(c.anchorKind));
    TextHeld(m, Anchor, Name.Value, c.anchorLabel);
    NumberHeld(m, Anchor, Name.Seq, c.anchorSeq);
    assert Holds(m, At, Node.Text(codec.show(c.anchorAt)));
    assert Sub(m, Anchor, At) == Success(Str(codec.show(c.anchorAt)));
    assert AsTime(codec, Str(codec.show(c.anchorAt)), Anchor) == Success(c.anchorAt);
    hide U64Sub, TextSub, Sub, Meaning, AnchorNode, AsTime;
  }

  lemma ProvenanceRead(p: Provenance)
    ensures ReadProvenance(Meaning(ProvenanceNode(p))) == Success(p)
  {
    var es, names := ProvenanceNode(p).entries, [Core, Missing];
    var m := Entered(es, map[]);
    assert Meaning(ProvenanceNode(p)) == Map(m);
    hide NameText, Entered, Meaning;
    EnteredHas(es, names, map[], 0);
    EnteredHas(es, names, map[], 1);
    TextHeld(m, Name.Provenance, Core, p.core);
    TextsHeld(m, Name.Provenance, Missing, p.missing);
    hide TextSub, ReadTextsSub, ProvenanceNode;
  }

  lemma SpanRead(s: NarrowedSpan)
    ensures ReadSpan(Meaning(SpanNode(s))) == Success(s)
  {
    var es, names := SpanNode(s).entries, [From, To, Filters];
    var m := Entered(es, map[]);
    assert Meaning(SpanNode(s)) == Map(m);
    hide NameText, Entered, Meaning, Number;
    EnteredHas(es, names, map[], 0);
    EnteredHas(es, names, map[], 1);
    EnteredHas(es, names, map[], 2);
    NumberHeld(m, NarrowedBy, From, s.from);
    NumberHeld(m, NarrowedBy, To, s.to);
    TextsHeld(m, NarrowedBy, Filters, s.filters);
    hide U64Sub, ReadTextsSub, SpanNode;
  }

  lemma {:induction false} SpansRead(spans: seq<NarrowedSpan>)
    ensures ReadSpans(Meanings(SpanNodes(spans))) == Success(spans)
  {
    hide Meaning, ReadSpan, SpanNode;
    if spans != [] {
      SpanRead(spans[0]);
      SpansRead(spans[1..]);
      assert SpanNodes(spans)[1..] == SpanNodes(spans[1..]);
      assert Meanings(SpanNodes(spans))[1..] == Meanings(SpanNodes(spans[1..]));
      assert [spans[0]] + spans[1..] == spans;
    }
  }

  // ---- Asserted facts ----------------------------------------------------------------------------

  /** A key asserted twice means what was asserted last. */
  function AssertedMap(facts: seq<ScopedFact>, m: map<string, string>): map<string, string> {
    if facts == [] then m else AssertedMap(facts[1..], m[facts[0].key := facts[0].value])
  }

  ghost predicate TextsOf(m: map<string, Value>, t: map<string, string>) {
    m.Keys == t.Keys && forall k :: k in m ==> m[k] == Str(t[k])
  }

  lemma {:induction false} AssertedEntered(facts: seq<ScopedFact>, m: map<string, Value>, t: map<string, string>)
    requires TextsOf(m, t)
    ensures TextsOf(Entered(AssertedEntries(facts), m), AssertedMap(facts, t))
  {
    if facts != [] {
      assert AssertedEntries(facts)[1..] == AssertedEntries(facts[1..]);
      AssertedEntered(facts[1..], m[facts[0].key := Str(facts[0].value)], t[facts[0].key := facts[0].value]);
    }
  }

  lemma AssertedRead(top: map<string, Value>, facts: seq<ScopedFact>)
    requires Holds(top, Asserted, Mapping(AssertedEntries(facts)))
    ensures ReadAsserted(top) == Success(AssertedMap(facts, map[]))
  {
    var m, t := Entered(AssertedEntries(facts), map[]), AssertedMap(facts, map[]);
    AssertedEntered(facts, map[], map[]);
    assert top[NameText(Asserted)] == Map(m);
    hide NameText, Entered, AssertedMap;
    assert forall k :: k in m ==> IsScalar(m[k]) && ScalarText(m[k]) == t[k];
    assert (map k | k in m :: ScalarText(m[k])) == t;
  }

  // ---- The whole document ------------------------------------------------------------------------

  /** What the lines leave in the map under `key`. */
  lemma {:induction false} TopHas<T>(codec: Codec<T>, c: Capture<T>, keys: seq<Name>, m: map<string, Value>, key: Name)
    ensures var r := Top(Lines(codec, c, keys), m);
      if key in keys && NodeFor(codec, c, key).Some? then Holds(r, key, NodeFor(codec, c, key).value)
      else (NameText(key) in r <==> NameText(key) in m) && (NameText(key) in m ==> r[NameText(key)] == m[NameText(key)])
  {
    hide NodeFor, NameText, Meaning;
    if keys != [] {
      var node := NodeFor(codec, c, keys[0]);
      var rest := Lines(codec, c, keys[1..]);
      if node.Some? {
        if NameText(keys[0]) == NameText(key) { NamesDistinct(keys[0], key); }
        assert ([Line(keys[0], node.value)] + rest)[1..] == rest;
        TopHas(codec, c, keys[1..], m[NameText(keys[0]) := Meaning(node.value)], key);
      } else {
        TopHas(codec, c, keys[1..], m, key);
      }
    }
  }

  ghost predicate TopOf<T>(codec: Codec<T>, c: Capture<T>, top: map<string, Value>) {
    forall key :: IsKey(key) ==>
      match NodeFor(codec, c, key)
      case Some(node) => Holds(top, key, node)
      case None => NameText(key) !in top
  }

  lemma TopIs<T>(codec: Codec<T>, c: Capture<T>)
    ensures TopOf(codec, c, Top(Lines(codec, c, ORDER), map[]))
  {
    hide NodeFor, NameText, Meaning, Top, Lines;
    forall key | IsKey(key)
      ensures key in ORDER
    {
      KeysAreOrdered(key);
    }
    hide IsKey;
    forall key | IsKey(key)
      ensures match NodeFor(codec, c, key)
              case Some(node) => Holds(Top(Lines(codec, c, ORDER), map[]), key, node)
              case None => NameText(key) !in Top(Lines(codec, c, ORDER), map[])
    {
      TopHas(codec, c, ORDER, map[], key);
    }
  }

  /** What a reader makes of a printed capture. An incarnation named `null` is taken for none. */
  function ReadBack<T>(c: Capture<T>): Document<T> {
    Document(
      c.stem, FORMAT_VERSION, c.capturedAt, c.domain, if c.incarnation == Some("null") then None else c.incarnation, c.reason,
      AnchorRef(KindWord(c.anchorKind), c.anchorLabel, c.anchorSeq, c.anchorAt), c.message, c.verdict, c.window,
      c.logdata, c.spandata, Some(c.narrowedBy), Coverage(c.registry), AssertedMap(c.asserted, map[]))
  }

  lemma FormatRead(top: map<string, Value>)
    requires Holds(top, LogmonFormat, Number(FORMAT_VERSION))
    ensures ReadFormat(top) == Success(FORMAT_VERSION)
  {
    U64RoundTrip(FORMAT_VERSION);
  }

  lemma TimeRead<T(!new)>(codec: Codec<T>, top: map<string, Value>, t: T)
    requires Faithful(codec) && Holds(top, CapturedAt, Node.Text(codec.show(t)))
    ensures Take(top, CapturedAt).Success? && AsTime(codec, Take(top, CapturedAt).value, CapturedAt) == Success(t)
  {
  }

  lemma IncarnationRead<T>(c: Capture<T>, top: map<string, Value>)
    requires Holds(top, Incarnation, match c.incarnation case Some(v) => Node.Text(v) case None => Word("null"))
    ensures TakeText(top, Incarnation).Success?
    ensures ReadIncarnation(TakeText(top, Incarnation).value) == ReadBack(c).incarnation
  {
  }

  lemma VerdictRead(top: map<string, Value>, v: Evidence)
    requires Holds(top, Verdict, Word(EvidenceWord(v)))
    ensures TakeText(top, Verdict).Success? && ReadVerdict(TakeText(top, Verdict).value) == Success(v)
  {
    TextHeld(top, Verdict, Verdict, EvidenceWord(v));
  }

  lemma NarrowedRead(top: map<string, Value>, spans: seq<NarrowedSpan>)
    requires Holds(top, NarrowedBy, List(SpanNodes(spans)))
    ensures ReadNarrowed(top) == Success(Some(spans))
  {
    SpansRead(spans);
  }

  lemma FileMaybeRead(top: map<string, Value>, key: Name, f: Option<FileRef>)
    requires if f.Some? then Holds(top, key, FileNode(f.value)) else NameText(key) !in top
    ensures ReadFile(top, key) == Success(f)
  {
    if f.Some? {
      FileRead(top, key, f.value);
    }
  }

  lemma Found<T>(codec: Codec<T>, c: Capture<T>, top: map<string, Value>, key: Name)
    requires TopOf(codec, c, top) && NodeFor(codec, c, key).Some?
    ensures Holds(top, key, NodeFor(codec, c, key).value)
    ensures Take(top, key) == Success(Meaning(NodeFor(codec, c, key).value))
  {
    assert IsKey(key);
  }

  lemma FileFound<T>(codec: Codec<T>, c: Capture<T>, top: map<string, Value>)
    requires TopOf(codec, c, top)
    ensures ReadFile(top, Logdata) == Success(c.logdata) && ReadFile(top, Spandata) == Success(c.spandata)
  {
    assert IsKey(Logdata) && IsKey(Spandata);
    hide FileNode, ReadFile, NameText;
    FileMaybeRead(top, Logdata, c.logdata);
    FileMaybeRead(top, Spandata, c.spandata);
  }

  lemma TextsFound<T>(codec: Codec<T>, c: Capture<T>, top: map<string, Value>)
    requires TopOf(codec, c, top)
    ensures TakeText(top, Case) == Success(c.stem) && TakeText(top, Domain) == Success(c.domain)
    ensures TakeText(top, Reason) == Success(c.reason) && TakeText(top, Headline) == Success(c.message)
  {
    hide TopOf, TakeText, NameText, Meaning;
    Found(codec, c, top, Case);
    Found(codec, c, top, Domain);
    Found(codec, c, top, Reason);
    Found(codec, c, top, Headline);
    TextHeld(top, Case, Case, c.stem);
    TextHeld(top, Domain, Domain, c.domain);
    TextHeld(top, Reason, Reason, c.reason);
    TextHeld(top, Headline, Headline, c.message);
  }

  lemma RestRead<T(!new)>(codec: Codec<T>, c: Capture<T>, top: map<string, Value>)
    requires Faithful(codec) && TopOf(codec, c, top)
    ensures var d := ReadBack(c);
      InterpretRest(codec, top, FORMAT_VERSION, d.anchor, c.window, d.narrowedBy, d.provenance, d.asserted) == Success(d)
  {
    hide TopOf, NameText, Meaning, KindWord, EvidenceWord, Coverage, Faithful, AssertedMap, Holds;
    Found(codec, c, top, Incarnation);
    Found(codec, c, top, Verdict);
    Found(codec, c, top, CapturedAt);
    IncarnationRead(c, top);
    VerdictRead(top, c.verdict);
    TimeRead(codec, top, c.capturedAt);
    TextsFound(codec, c, top);
    FileFound(codec, c, top);
    hide NodeFor, TakeText, Take, AsTime, ReadFile, ReadVerdict, ReadIncarnation;
  }

  lemma InterpretTop<T(!new)>(codec: Codec<T>, c: Capture<T>, top: map<string, Value>)
    requires Faithful(codec) && TopOf(codec, c, top)
    ensures Interpret(codec, top) == Success(ReadBack(c))
  {
    hide TopOf, NameText, Meaning, Number, AnchorNode, RangeNode, ProvenanceNode, SpanNodes, AssertedEntries, KindWord,
      Coverage, Faithful, AssertedMap, InterpretRest, Holds;
    Found(codec, c, top, LogmonFormat);
    Found(codec, c, top, Anchor);
    Found(codec, c, top, Name.SeqRange);
    Found(codec, c, top, NarrowedBy);
    Found(codec, c, top, Name.Provenance);
    Found(codec, c, top, Asserted);
    FormatRead(top);
    AnchorRead(codec, c);
    RangeRead(c.window);
    NarrowedRead(top, c.narrowedBy);
    ProvenanceRead(Coverage(c.registry));
    AssertedRead(top, c.asserted);
    RestRead(codec, c, top);
    hide ReadFormat, ReadAnchor, ReadRange, ReadNarrowed, ReadProvenance, ReadAsserted, Take, NodeFor;
  }

  /** Reading a printed capture gives `ReadBack`, whatever body follows the front matter. */
  lemma ReadsBack<T(!new)>(codec: Codec<T>, c: Capture<T>, body: string)
    requires Faithful(codec) && Clean(false, c.stem)
    ensures ParsedFrontMatter(codec, FrontMatterText(codec, c) + body) == Success(ReadBack(c))
  {
    var lines := Lines(codec, c, ORDER);
    LinesSayable(codec, c, ORDER);
    LinesStart(codec, c);
    hide Clean, Faithful, Interpret, Lines, SayableLines, ReadLines, Fenced, PrintLines;
    PrintedBlock(lines, body);
    BlockParses(lines, 1, map[]);
    TopIs(codec, c);
    InterpretTop(codec, c, Top(lines, map[]));
    assert FrontMatterText(codec, c) + body == "---\n" + PrintLines(lines) + "---\n\n" + body;
  }

  lemma LinesStart<T>(codec: Codec<T>, c: Capture<T>)
    ensures Lines(codec, c, ORDER) != []
  {
    assert ORDER[0] == Case && NodeFor(codec, c, Case).Some?;
  }

  /**
   Every field comes back as it was captured — for all texts, with quotes, braces, commas, control
   characters or Unicode line breaks in them — if and only if the incarnation is not called `null`.
   */
  lemma RoundTrip<T(!new)>(codec: Codec<T>, c: Capture<T>, body: string)
    requires Faithful(codec) && Clean(false, c.stem)
    ensures
      var r := ParsedFrontMatter(codec, FrontMatterText(codec, c) + body);
      (r.Success? && r.value == ReadBack(c).(incarnation := c.incarnation)) <==> c.incarnation != Some("null")
  {
    hide Faithful, Clean, FrontMatterText, ParsedFrontMatter;
    ReadsBack(codec, c, body);
  }
}
