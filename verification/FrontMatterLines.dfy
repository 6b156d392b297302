/** A printed document splits into the lines it was printed from, and each line into its key and value. */
module FrontMatterLines {
  import opened Text
  import opened YamlScalar
  import opened FlowScanner
  import opened FlowPrinter
  import opened FieldNames
  import opened FrontMatter

  // ---- Everything printed is sayable -------------------------------------------------------------

  /** What a case's stem is made of. */
  predicate IsStem(s: string) {
    s != "" && forall i :: 0 <= i < |s| ==> IsStemChar(s[i])
  }

  predicate IsStemChar(c: char) {
    'a' <= c <= 'z' || 'A' <= c <= 'Z' || '0' <= c <= '9' || c == '_' || c == '-'
  }

  lemma StemClean(s: string)
    requires IsStem(s)
    ensures Clean(false, s) && Clean(true, s)
  {
    assert IsStemChar(s[0]) && IsStemChar(s[|s| - 1]);
  }

  lemma NumberSayable(n: U64)
    ensures Sayable(Number(n))
  {
    NatTextDigits(n);
    var t := NatText(n);
    assert IsDigit(t[0]) && IsDigit(t[|t| - 1]);
    StemClean(t);
  }

  lemma NameClean(n: Name)
    ensures Clean(true, NameText(n))
  {
    NamePlain(n);
    hide NameText;
    assert IsNameChar(NameText(n)[0]) && IsNameChar(NameText(n)[|NameText(n)| - 1]);
  }

  lemma {:induction false} EntriesSayable(entries: seq<Entry>)
    requires forall i :: 0 <= i < |entries| ==> (entries[i].quoted || Clean(true, entries[i].name)) && Sayable(entries[i].node)
    ensures SayableEntries(entries)
  {
    if entries != [] {
      EntriesSayable(entries[1..]);
    }
  }

  lemma {:induction false} ItemsSayable(items: seq<Node>)
    requires forall i :: 0 <= i < |items| ==> Sayable(items[i])
    ensures SayableItems(items)
  {
    if items != [] {
      ItemsSayable(items[1..]);
    }
  }

  /** A mapping of named fields. */
  ghost predicate OfFields(entries: seq<Entry>, names: seq<Name>) {
    |entries| == |names| && forall i :: 0 <= i < |entries| ==> entries[i] == Field(names[i], entries[i].node)
  }

  lemma FieldsSayable(entries: seq<Entry>, names: seq<Name>)
    requires OfFields(entries, names) && forall i :: 0 <= i < |entries| ==> Sayable(entries[i].node)
    ensures Sayable(Mapping(entries))
  {
    forall i | 0 <= i < |entries|
      ensures Clean(true, entries[i].name)
    {
      NameClean(names[i]);
    }
    EntriesSayable(entries);
  }

  lemma TextsSayable(texts: seq<string>)
    ensures Sayable(List(TextList(texts)))
  {
    ItemsSayable(TextList(texts));
  }

  lemma CountsSayable(c: SourceCounts)
    ensures Sayable(CountsNode(c))
  {
    NumberSayable(c.filter);
    NumberSayable(c.preTrigger);
    NumberSayable(c.postTrigger);
    hide Sayable, Number, NameText;
    FieldsSayable(CountsNode(c).entries, [Filter, PreTrigger, PostTrigger]);
  }

  function FileFields(f: FileRef): seq<Name> {
    if f.bySource.Some? then [File, Records, BySource] else [File, Records]
  }

  lemma FileSayable(f: FileRef)
    ensures Sayable(FileNode(f))
  {
    NumberSayable(f.records);
    assert Sayable(Node.Text(f.file));
    if f.bySource.Some? { CountsSayable(f.bySource.value); }
    hide Sayable, Number, NameText, CountsNode;
    FieldsSayable(FileNode(f).entries, FileFields(f));
  }

  lemma SpanSayable(s: NarrowedSpan)
    ensures Sayable(SpanNode(s))
  {
    NumberSayable(s.from);
    NumberSayable(s.to);
    TextsSayable(s.filters);
    hide Sayable, Number, NameText;
    FieldsSayable(SpanNode(s).entries, [From, To, Filters]);
  }

  const RANGE_FIELDS: seq<Name> := [From, To, RequestedBeforeMissing, RequestedAfterMissing, Clamped]

  lemma RangeSayable(r: SeqRange)
    ensures Sayable(RangeNode(r))
  {
    NumberSayable(r.from);
    NumberSayable(r.to);
    NumberSayable(r.missingBefore);
    NumberSayable(r.missingAfter);
    StemClean(BoolWord(r.clamped));
    assert Sayable(Word(BoolWord(r.clamped)));
    hide Sayable, Number, NameText, BoolWord;
    FieldsSayable(RangeNode(r).entries, RANGE_FIELDS);
  }

  const ANCHOR_FIELDS: seq<Name> := [Kind, Name.Value, Name.Seq, At]

  lemma AnchorSayable<T>(codec: Codec<T>, c: Capture<T>)
    ensures Sayable(AnchorNode(codec, c))
  {
    NumberSayable(c.anchorSeq);
    StemClean(KindWord(c.anchorKind));
    assert Sayable(Word(KindWord(c.anchorKind)));
    assert Sayable(Node.Text(c.anchorLabel)) && Sayable(Node.Text(codec.show(c.anchorAt)));
    hide Sayable, Number, NameText, KindWord;
    FieldsSayable(AnchorNode(codec, c).entries, ANCHOR_FIELDS);
  }

  lemma ProvenanceSayable(p: Provenance)
    ensures Sayable(ProvenanceNode(p))
  {
    TextsSayable(p.missing);
    assert Sayable(Node.Text(p.core));
    hide Sayable, NameText;
    FieldsSayable(ProvenanceNode(p).entries, [Core, Missing]);
  }

  lemma NodeSayable<T>(codec: Codec<T>, c: Capture<T>, key: Name)
    requires Clean(false, c.stem) && NodeFor(codec, c, key).Some?
    ensures Sayable(NodeFor(codec, c, key).value)
  {
    match key {
      case LogmonFormat => NumberSayable(FORMAT_VERSION);
      case Incarnation => StemClean("null");
      case Anchor => AnchorSayable(codec, c);
      case Verdict => StemClean(EvidenceWord(c.verdict));
      case SeqRange => RangeSayable(c.window);
      case Logdata => FileSayable(c.logdata.value);
      case Spandata => FileSayable(c.spandata.value);
      case NarrowedBy =>
        forall i | 0 <= i < |c.narrowedBy| ensures Sayable(SpanNode(c.narrowedBy[i])) { SpanSayable(c.narrowedBy[i]); }
        ItemsSayable(SpanNodes(c.narrowedBy));
      case Provenance => ProvenanceSayable(Coverage(c.registry));
      case Asserted => EntriesSayable(AssertedEntries(c.asserted));
      case _ =>
    }
  }

  // ---- Each line is read as its key and its value ------------------------------------------------

  ghost predicate SayableLines(lines: seq<Line>) {
    forall i :: 0 <= i < |lines| ==> Sayable(lines[i].node)
  }

  lemma {:induction false} LinesSayable<T>(codec: Codec<T>, c: Capture<T>, keys: seq<Name>)
    requires Clean(false, c.stem)
    ensures SayableLines(Lines(codec, c, keys))
  {
    if keys != [] {
      LinesSayable(codec, c, keys[1..]);
      if NodeFor(codec, c, keys[0]).Some? {
        NodeSayable(codec, c, keys[0]);
      }
    }
  }

  predicate NoBreak(s: string) {
    '\n' !in s
  }

  /** A printed line starts with a letter and holds no line break. */
  lemma LineShape(l: Line)
    requires Sayable(l.node)
    ensures PrintLine(l) != "" && PrintLine(l)[0] != '-' && Trimmed(PrintLine(l)) && NoBreak(PrintLine(l))
  {
    NamePlain(l.key);
    PrintsOnOneLine(l.node);
    hide NameText, Print, Sayable;
    var t := PrintLine(l);
    assert t[0] == NameText(l.key)[0] && IsNameChar(t[0]) && t[|t| - 1] == Print(l.node)[|Print(l.node)| - 1];
    assert '\n' !in NameText(l.key) && '\n' !in Print(l.node) && '\n' !in ": ";
  }

  lemma LineParses(l: Line, number: nat)
    requires Sayable(l.node)
    ensures ReadLine(number, PrintLine(l)) == Success((NameText(l.key), Meaning(l.node)))
  {
    NamePlain(l.key);
    NameClean(l.key);
    PrintParses(l.node, "");
    hide NameText, Print, Meaning, ValueFrom, Sayable, Clean;
    var key, rest := NameText(l.key), ": " + Print(l.node);
    assert PrintLine(l) == key + rest;
    assert ':' !in key;
    FindPast(':', key, rest);
    assert (key + rest)[|key| + 1..] == " " + Print(l.node) + "" && (key + rest)[..|key|] == key;
    TrimTrimmed(key);
  }

  function Top(lines: seq<Line>, m: map<string, Value>): map<string, Value> {
    if lines == [] then m else Top(lines[1..], m[NameText(lines[0].key) := Meaning(lines[0].node)])
  }

  /** The lines without the break after the last. */
  function Block(lines: seq<Line>): string {
    if lines == [] then ""
    else if |lines| == 1 then PrintLine(lines[0])
    else PrintLine(lines[0]) + "\n" + Block(lines[1..])
  }

  lemma {:induction false} BlockLines(lines: seq<Line>)
    requires lines != []
    ensures PrintLines(lines) == Block(lines) + "\n"
  {
    hide PrintLine;
    if |lines| == 1 {
      assert PrintLines(lines[1..]) == "";
    } else {
      BlockLines(lines[1..]);
    }
  }

  lemma SplitsAtBreak(line: string, more: string, rest: string)
    requires NoBreak(line) && ((more == "" && rest == "") || more == "\n" + rest)
    ensures (line + more)[..Find('\n', line + more)] == line && AfterLine(line + more) == rest
  {
    FindPast('\n', line, more);
    assert (line + more)[..|line|] == line;
    assert more != "" ==> (line + more)[|line| + 1..] == rest;
  }

  lemma ReadOneLine(l: Line, more: string, rest: string, number: nat, top: map<string, Value>)
    requires Sayable(l.node) && ((more == "" && rest == "") || more == "\n" + rest)
    ensures ReadLines(PrintLine(l) + more, number, top) ==
            ReadLines(rest, number + 1, top[NameText(l.key) := Meaning(l.node)])
  {
    LineShape(l);
    LineParses(l, number);
    TrimTrimmed(PrintLine(l));
    hide PrintLine, ReadLine, Meaning, NameText, Sayable, Trim, Trimmed, AfterLine, Find;
    SplitsAtBreak(PrintLine(l), more, rest);
  }

  lemma BlockOne(lines: seq<Line>)
    requires |lines| == 1
    ensures Block(lines) == PrintLine(lines[0]) + "" == PrintLine(lines[0])
  {
    hide PrintLine;
  }

  lemma BlockMore(lines: seq<Line>)
    requires |lines| > 1
    ensures Block(lines) == PrintLine(lines[0]) + ("\n" + Block(lines[1..]))
  {
    hide PrintLine;
  }

  lemma {:induction false} BlockParses(lines: seq<Line>, number: nat, top: map<string, Value>)
    requires SayableLines(lines)
    ensures ReadLines(Block(lines), number, top) == Success(Top(lines, top))
  {
    if lines != [] {
      var l := lines[0];
      var top' := top[NameText(l.key) := Meaning(l.node)];
      assert Top(lines, top) == Top(lines[1..], top');
      if |lines| == 1 {
        BlockOne(lines);
        assert Top(lines[1..], top') == top';
        hide ReadLines, PrintLine, Meaning, NameText, Sayable, Block, Top;
        ReadOneLine(l, "", "", number, top);
        NothingLeft(number + 1, top');
      } else {
        BlockMore(lines);
        hide ReadLines, PrintLine, Meaning, NameText, Sayable, Block, Top;
        BlockParses(lines[1..], number + 1, top');
        ReadOneLine(l, "\n" + Block(lines[1..]), Block(lines[1..]), number, top);
      }
    }
  }

  lemma NothingLeft(number: nat, top: map<string, Value>)
    ensures ReadLines("", number, top) == Success(top)
  {
  }

  // ---- The fence is found where it was written ---------------------------------------------------

  lemma {:induction false} FencePast(s: string, rest: string)
    requires NoBreak(s) && FindFence(rest).Some?
    ensures FindFence(s + rest) == Some(|s| + FindFence(rest).value)
  {
    if s == "" {
      assert s + rest == rest;
    } else {
      assert (s + rest)[1..] == s[1..] + rest;
      FencePast(s[1..], rest);
      assert (s + rest)[..4][0] == s[0];
    }
  }

  lemma FenceHere(line: string, tail: string)
    requires NoBreak(line)
    ensures FindFence(line + "\n---" + tail) == Some(|line|)
  {
    var fence := "\n---" + tail;
    assert fence[..4] == "\n---";
    FencePast(line, fence);
    assert line + "\n---" + tail == line + fence;
  }

  lemma BreakOnly(rest: string)
    requires rest != "" && rest[0] != '-' && FindFence(rest).Some?
    ensures FindFence("\n" + rest) == Some(1 + FindFence(rest).value)
  {
    var s := "\n" + rest;
    assert s[1..] == rest;
    assert |s| >= 4 ==> s[..4][1] == rest[0];
  }

  lemma FenceLater(line: string, rest: string)
    requires NoBreak(line) && rest != "" && rest[0] != '-' && FindFence(rest).Some?
    ensures FindFence(line + ("\n" + rest)) == Some(|line| + 1 + FindFence(rest).value)
  {
    hide FindFence, NoBreak;
    BreakOnly(rest);
    FencePast(line, "\n" + rest);
  }

  lemma Regroup(a: string, b: string, c: string, d: string, e: string)
    ensures a + b + c + d + e == a + (b + (c + d + e))
  {
  }

  lemma BlockStep(lines: seq<Line>, tail: string)
    requires |lines| > 1 && SayableLines(lines)
    ensures Block(lines) + "\n---" + tail == PrintLine(lines[0]) + ("\n" + (Block(lines[1..]) + "\n---" + tail))
    ensures |Block(lines)| == |PrintLine(lines[0])| + 1 + |Block(lines[1..])|
    ensures Block(lines[1..]) != "" && Block(lines[1..])[0] != '-'
  {
    LineShape(lines[1]);
    hide PrintLine;
    Regroup(PrintLine(lines[0]), "\n", Block(lines[1..]), "\n---", tail);
  }

  lemma {:induction false} FenceFound(lines: seq<Line>, tail: string)
    requires lines != [] && SayableLines(lines)
    ensures FindFence(Block(lines) + "\n---" + tail) == Some(|Block(lines)|)
  {
    LineShape(lines[0]);
    if |lines| == 1 {
      BlockOne(lines);
      hide Block, PrintLine, Sayable, FindFence, Trimmed, NoBreak;
      FenceHere(PrintLine(lines[0]), tail);
    } else {
      BlockStep(lines, tail);
      hide PrintLine, Sayable, FindFence, Trimmed, NoBreak, Block;
      FenceFound(lines[1..], tail);
      FenceLater(PrintLine(lines[0]), Block(lines[1..]) + "\n---" + tail);
    }
  }

  /** The fenced block of a printed document is its lines, whatever body follows. */
  lemma PrintedBlock(lines: seq<Line>, body: string)
    requires lines != [] && SayableLines(lines)
    ensures Fenced("---\n" + PrintLines(lines) + "---\n\n" + body) == Some(Block(lines))
  {
    var block, tail := Block(lines), "\n\n" + body;
    BlockLines(lines);
    FenceFound(lines, tail);
    hide Block, PrintLines, FindFence;
    var doc, inner := "---\n" + (block + "\n") + "---\n\n" + body, block + "\n---" + tail;
    assert doc == "---\n" + inner;
    assert doc[..4] == "---\n" && doc[4..] == inner && inner[..|block|] == block;
  }
}
