/**
 A case document's front matter: how a capture is printed, how a document is read, and that reading
 gives back what was printed.
 */
module FrontMatter {
  import opened Text
  import opened YamlScalar
  import opened FlowScanner
  import opened FlowPrinter
  import opened FieldNames

  type U64 = n: nat | n < TWO_64

  const FORMAT_VERSION: U64 := 1
  const MAX_U32: nat := 0xFFFF_FFFF

  /** The registry keys whose coverage every document reports. */
  const CORE_KEYS: seq<string> := ["/Build/commit", "/Build/profile", "/Action"]

  datatype Evidence = Complete | Evicted | Filtered | CannotVerify
  datatype AnchorKind = BySeq | ByBookmark | ByTraceId

  datatype SourceCounts = SourceCounts(filter: U64, preTrigger: U64, postTrigger: U64)
  datatype FileRef = FileRef(file: string, records: U64, bySource: Option<SourceCounts>)
  datatype NarrowedSpan = NarrowedSpan(from: U64, to: U64, filters: seq<string>)
  datatype SeqRange = SeqRange(from: U64, to: U64, missingBefore: U64, missingAfter: U64, clamped: bool)
  datatype ScopedFact = ScopedFact(key: string, value: string)

  /** What a capture knows when it is printed. `T` is an instant. */
  datatype Capture<!T> = Capture(
    stem: string, capturedAt: T, domain: string, incarnation: Option<string>, reason: string,
    anchorKind: AnchorKind, anchorLabel: string, anchorSeq: U64, anchorAt: T, message: string,
    verdict: Evidence, window: SeqRange, logdata: Option<FileRef>, spandata: Option<FileRef>,
    narrowedBy: seq<NarrowedSpan>, registry: seq<string>, asserted: seq<ScopedFact>)

  datatype AnchorRef<!T> = AnchorRef(kind: string, value: string, seqNo: U64, at: T)
  datatype Provenance = Provenance(core: string, missing: seq<string>)

  /** What a reader makes of a document. */
  datatype Document<!T> = Document(
    stem: string, format: nat, capturedAt: T, domain: string, incarnation: Option<string>, reason: string,
    anchor: AnchorRef<T>, headline: string, verdict: Evidence, seqRange: SeqRange,
    logdata: Option<FileRef>, spandata: Option<FileRef>, narrowedBy: Option<seq<NarrowedSpan>>,
    provenance: Provenance, asserted: map<string, string>)

  /** How instants are written and read. */
  datatype Codec<!T> = Codec(show: T -> string, read: string -> Option<T>)

  ghost predicate Faithful<T(!new)>(c: Codec<T>) {
    forall t :: c.read(c.show(t)) == Some(t)
  }

  datatype Wanted = AScalar | ANumber | ABool | AMapping | AField | ASequence

  datatype ParseError =
    | NoFrontMatter
    | MalformedLine(line: nat, text: string)
    | MissingKey(key: Name)
    | WrongType(key: Name, wanted: Wanted)
    | Unscannable(error: ScanError)
    | BadTimestamp(key: Name, value: string)
    | BadVerdict(word: string)
    | FormatTooNew(found: nat)

  // ---- Printing ----------------------------------------------------------------------------------

  function EvidenceWord(v: Evidence): string {
    match v
    case Complete => "complete"
    case Evicted => "evicted"
    case Filtered => "filtered"
    case CannotVerify => "cannot_verify"
  }

  function KindWord(k: AnchorKind): string {
    match k
    case BySeq => "seq"
    case ByBookmark => "bookmark"
    case ByTraceId => "trace_id"
  }

  function BoolWord(b: bool): string {
    if b then "true" else "false"
  }

  function Number(n: U64): Node {
    Word(NatText(n))
  }

  function Field(n: Name, node: Node): Entry {
    Entry(false, NameText(n), node)
  }

  function TextList(texts: seq<string>): (r: seq<Node>)
    ensures |r| == |texts| && forall i :: 0 <= i < |r| ==> r[i] == Node.Text(texts[i])
  {
    seq(|texts|, i requires 0 <= i < |texts| => Node.Text(texts[i]))
  }

  function CountsNode(c: SourceCounts): Node {
    Mapping([Field(Filter, Number(c.filter)), Field(PreTrigger, Number(c.preTrigger)), Field(PostTrigger, Number(c.postTrigger))])
  }

  function FileNode(f: FileRef): Node {
    Mapping([Field(File, Node.Text(f.file)), Field(Records, Number(f.records))]
            + match f.bySource case None => [] case Some(c) => [Field(BySource, CountsNode(c))])
  }

  function SpanNode(s: NarrowedSpan): Node {
    Mapping([Field(From, Number(s.from)), Field(To, Number(s.to)), Field(Filters, List(TextList(s.filters)))])
  }

  function RangeNode(r: SeqRange): Node {
    Mapping([Field(From, Number(r.from)), Field(To, Number(r.to)),
             Field(RequestedBeforeMissing, Number(r.missingBefore)), Field(RequestedAfterMissing, Number(r.missingAfter)),
             Field(Clamped, Word(BoolWord(r.clamped)))])
  }

  function AnchorNode<T>(codec: Codec<T>, c: Capture<T>): Node {
    Mapping([Field(Kind, Word(KindWord(c.anchorKind))), Field(Name.Value, Node.Text(c.anchorLabel)),
             Field(Name.Seq, Number(c.anchorSeq)), Field(At, Node.Text(codec.show(c.anchorAt)))])
  }

  /** The core keys the registry does not hold. */
  function MissingCore(registry: seq<string>, keys: seq<string>): (r: seq<string>)
    ensures |r| <= |keys|
  {
    if keys == [] then []
    else (if keys[0] in registry then [] else [keys[0]]) + MissingCore(registry, keys[1..])
  }

  function Coverage(registry: seq<string>): Provenance {
    var missing := MissingCore(registry, CORE_KEYS);
    Provenance.Provenance(NatText(|CORE_KEYS| - |missing|) + " of " + NatText(|CORE_KEYS|), missing)
  }

  function ProvenanceNode(p: Provenance): Node {
    Mapping([Field(Core, Node.Text(p.core)), Field(Missing, List(TextList(p.missing)))])
  }

  function SpanNodes(spans: seq<NarrowedSpan>): (r: seq<Node>)
    ensures |r| == |spans| && forall i :: 0 <= i < |r| ==> r[i] == SpanNode(spans[i])
  {
    seq(|spans|, i requires 0 <= i < |spans| => SpanNode(spans[i]))
  }

  function AssertedEntries(facts: seq<ScopedFact>): (r: seq<Entry>)
    ensures |r| == |facts| && forall i :: 0 <= i < |r| ==> r[i] == Entry(true, facts[i].key, Node.Text(facts[i].value))
  {
    seq(|facts|, i requires 0 <= i < |facts| => Entry(true, facts[i].key, Node.Text(facts[i].value)))
  }

  /** What is written under a key; evidence that was left out has no key at all. */
  function NodeFor<T>(codec: Codec<T>, c: Capture<T>, key: Name): Option<Node> {
    match key
    case Case => Some(Word(c.stem))
    case LogmonFormat => Some(Number(FORMAT_VERSION))
    case CapturedAt => Some(Node.Text(codec.show(c.capturedAt)))
    case Domain => Some(Node.Text(c.domain))
    case Incarnation => Some(match c.incarnation case Some(v) => Node.Text(v) case None => Word("null"))
    case Reason => Some(Node.Text(c.reason))
    case Anchor => Some(AnchorNode(codec, c))
    case Headline => Some(Node.Text(c.message))
    case Verdict => Some(Word(EvidenceWord(c.verdict)))
    case SeqRange => Some(RangeNode(c.window))
    case Logdata => if c.logdata.Some? then Some(FileNode(c.logdata.value)) else None
    case Spandata => if c.spandata.Some? then Some(FileNode(c.spandata.value)) else None
    case NarrowedBy => Some(List(SpanNodes(c.narrowedBy)))
    case Provenance => Some(ProvenanceNode(Coverage(c.registry)))
    case Asserted => Some(Mapping(AssertedEntries(c.asserted)))
    case _ => None
  }

  /** One key and its value. */
  datatype Line = Line(key: Name, node: Node)

  function Lines<T>(codec: Codec<T>, c: Capture<T>, keys: seq<Name>): seq<Line> {
    if keys == [] then []
    else
      var rest := Lines(codec, c, keys[1..]);
      match NodeFor(codec, c, keys[0]) case None => rest case Some(n) => [Line(keys[0], n)] + rest
  }

  function PrintLine(l: Line): string {
    NameText(l.key) + ": " + Print(l.node)
  }

  function PrintLines(lines: seq<Line>): string {
    if lines == [] then "" else PrintLine(lines[0]) + "\n" + PrintLines(lines[1..])
  }

  function FrontMatterText<T>(codec: Codec<T>, c: Capture<T>): string {
    "---\n" + PrintLines(Lines(codec, c, ORDER)) + "---\n\n"
  }

  /** The printer as it runs: line after line onto a growing string. */
  method Render<T>(codec: Codec<T>, c: Capture<T>) returns (s: string)
    ensures s == FrontMatterText(codec, c)
  {
    hide NodeFor, PrintLine;
    s := "---\n";
    ghost var all := PrintLines(Lines(codec, c, ORDER));
    for k := 0 to |ORDER|
      invariant s + PrintLines(Lines(codec, c, ORDER[k..])) == "---\n" + all
    {
      var keys := ORDER[k..];
      assert keys[1..] == ORDER[k + 1..];
      var node := NodeFor(codec, c, keys[0]);
      if node.Some? {
        ghost var rest := Lines(codec, c, keys[1..]);
        var l := Line(keys[0], node.value);
        assert ([l] + rest)[1..] == rest;
        assert s + PrintLines([l] + rest) == (s + PrintLine(l) + "\n") + PrintLines(rest);
        s := s + PrintLine(l) + "\n";
      }
    }
    assert s + "" == s;
    s := s + "---\n\n";
  }

  // ---- Reading -----------------------------------------------------------------------------------

  /** Where the closing fence starts. */
  function FindFence(s: string): (r: Option<nat>)
    ensures r.Some? ==> r.value <= |s|
  {
    if |s| < 4 then None
    else if s[..4] == "\n---" then Some(0)
    else match FindFence(s[1..]) case None => None case Some(n) => Some(n + 1)
  }

  /** The block between the fences. */
  function Fenced(doc: string): Option<string> {
    if |doc| < 4 || doc[..4] != "---\n" then None
    else match FindFence(doc[4..]) case None => None case Some(n) => Some(doc[4..][..n])
  }

  /** One trimmed line that is not empty: its key and its value. Input after the value is ignored. */
  function ReadLine(number: nat, line: string): Result<(string, Value), ParseError> {
    var colon := Find(':', line);
    if colon == |line| then Failure(MalformedLine(number, line))
    else
      match ValueFrom(line[colon + 1..])
      case Bad(e) => Failure(Unscannable(e))
      case Got(v, _) => Success((Trim(line[..colon]), v))
  }

  /** The block, line by line; of a key that comes twice the last counts. */
  function ReadLines(block: string, number: nat, top: map<string, Value>): Result<map<string, Value>, ParseError>
    decreases |block|
  {
    if block == "" then Success(top)
    else
      var line := Trim(block[..Find('\n', block)]);
      if line == "" then ReadLines(AfterLine(block), number + 1, top)
      else
        var (key, value) :- ReadLine(number, line);
        ReadLines(AfterLine(block), number + 1, top[key := value])
  }

  function Take(m: map<string, Value>, key: Name): Result<Value, ParseError> {
    if NameText(key) in m then Success(m[NameText(key)]) else Failure(MissingKey(key))
  }

  function Sub(m: map<string, Value>, key: Name, inner: Name): Result<Value, ParseError> {
    if NameText(inner) in m then Success(m[NameText(inner)]) else Failure(WrongType(key, AField))
  }

  function AsText(v: Value, key: Name): Result<string, ParseError> {
    match v
    case Str(s) => Success(s)
    case Bare(s) => Success(s)
    case _ => Failure(WrongType(key, AScalar))
  }

  function AsU64(v: Value, key: Name): Result<U64, ParseError> {
    var t :- AsText(v, key);
    match ParseU64(t) case None => Failure(WrongType(key, ANumber)) case Some(n) => Success(n)
  }

  function AsBool(v: Value, key: Name): Result<bool, ParseError> {
    var t :- AsText(v, key);
    if t == "true" then Success(true) else if t == "false" then Success(false) else Failure(WrongType(key, ABool))
  }

  function AsMap(v: Value, key: Name): Result<map<string, Value>, ParseError> {
    if v.Map? then Success(v.entries) else Failure(WrongType(key, AMapping))
  }

  function AsTime<T>(codec: Codec<T>, v: Value, key: Name): Result<T, ParseError> {
    var t :- AsText(v, key);
    match codec.read(t) case None => Failure(BadTimestamp(key, t)) case Some(at) => Success(at)
  }

  function AsTexts(items: seq<Value>, key: Name): Result<seq<string>, ParseError> {
    if items == [] then Success([])
    else
      var t :- AsText(items[0], key);
      var rest :- AsTexts(items[1..], key);
      Success([t] + rest)
  }

  function TextSub(m: map<string, Value>, key: Name, inner: Name): Result<string, ParseError> {
    var v :- Sub(m, key, inner);
    AsText(v, key)
  }

  function U64Sub(m: map<string, Value>, key: Name, inner: Name): Result<U64, ParseError> {
    var v :- Sub(m, key, inner);
    AsU64(v, key)
  }

  function ReadAnchor<T>(codec: Codec<T>, v: Value): Result<AnchorRef<T>, ParseError> {
    var m :- AsMap(v, Anchor);
    var kind :- TextSub(m, Anchor, Kind);
    var value :- TextSub(m, Anchor, Name.Value);
    var seqNo :- U64Sub(m, Anchor, Name.Seq);
    var atText :- Sub(m, Anchor, At);
    var at :- AsTime(codec, atText, Anchor);
    Success(AnchorRef(kind, value, seqNo, at))
  }

  function ReadRange(v: Value): Result<SeqRange, ParseError> {
    var m :- AsMap(v, Name.SeqRange);
    var from :- U64Sub(m, Name.SeqRange, From);
    var to :- U64Sub(m, Name.SeqRange, To);
    var before :- U64Sub(m, Name.SeqRange, RequestedBeforeMissing);
    var after :- U64Sub(m, Name.SeqRange, RequestedAfterMissing);
    var flag :- Sub(m, Name.SeqRange, Clamped);
    var clamped :- AsBool(flag, Name.SeqRange);
    Success(SeqRange.SeqRange(from, to, before, after, clamped))
  }

  function ReadCounts(v: Value, key: Name): Result<SourceCounts, ParseError> {
    var m :- AsMap(v, key);
    var filter :- U64Sub(m, key, Filter);
    var pre :- U64Sub(m, key, PreTrigger);
    var post :- U64Sub(m, key, PostTrigger);
    Success(SourceCounts(filter, pre, post))
  }

  function ReadBySource(m: map<string, Value>, key: Name): Result<Option<SourceCounts>, ParseError> {
    if NameText(BySource) !in m then Success(None)
    else
      var c :- ReadCounts(m[NameText(BySource)], key);
      Success(Some(c))
  }

  /** An absent key is evidence left out, not an error and not `records: 0`. */
  function ReadFile(top: map<string, Value>, key: Name): Result<Option<FileRef>, ParseError> {
    if NameText(key) !in top then Success(None)
    else
      var m :- AsMap(top[NameText(key)], key);
      var bySource :- ReadBySource(m, key);
      var file :- TextSub(m, key, File);
      var records :- U64Sub(m, key, Records);
      Success(Some(FileRef(file, records, bySource)))
  }

  function ReadTextsSub(m: map<string, Value>, key: Name, inner: Name): Result<seq<string>, ParseError> {
    var v :- Sub(m, key, inner);
    if v.Seq? then AsTexts(v.items, key) else Failure(WrongType(key, ASequence))
  }

  function ReadSpan(v: Value): Result<NarrowedSpan, ParseError> {
    var m :- AsMap(v, NarrowedBy);
    var filters :- ReadTextsSub(m, NarrowedBy, Filters);
    var from :- U64Sub(m, NarrowedBy, From);
    var to :- U64Sub(m, NarrowedBy, To);
    Success(NarrowedSpan(from, to, filters))
  }

  function ReadSpans(items: seq<Value>): Result<seq<NarrowedSpan>, ParseError> {
    if items == [] then Success([])
    else
      var s :- ReadSpan(items[0]);
      var rest :- ReadSpans(items[1..]);
      Success([s] + rest)
  }

  /** No key: a case older than the key. An empty list: nothing was narrowed. */
  function ReadNarrowed(top: map<string, Value>): Result<Option<seq<NarrowedSpan>>, ParseError> {
    if NameText(NarrowedBy) !in top then Success(None)
    else if !top[NameText(NarrowedBy)].Seq? then Failure(WrongType(NarrowedBy, ASequence))
    else
      var spans :- ReadSpans(top[NameText(NarrowedBy)].items);
      Success(Some(spans))
  }

  function ReadProvenance(v: Value): Result<Provenance, ParseError> {
    var m :- AsMap(v, Name.Provenance);
    var core :- TextSub(m, Name.Provenance, Core);
    var missing :- ReadTextsSub(m, Name.Provenance, Missing);
    Success(Provenance.Provenance(core, missing))
  }

  predicate IsScalar(v: Value) {
    v.Str? || v.Bare?
  }

  function ScalarText(v: Value): string
    requires IsScalar(v)
  {
    match v case Str(s) => s case Bare(s) => s
  }

  function ReadAsserted(top: map<string, Value>): Result<map<string, string>, ParseError> {
    if NameText(Asserted) !in top then Success(map[])
    else
      var m :- AsMap(top[NameText(Asserted)], Asserted);
      if forall k :: k in m ==> IsScalar(m[k]) then Success(map k | k in m :: ScalarText(m[k]))
      else Failure(WrongType(Asserted, AScalar))
  }

  function ReadIncarnation(text: string): Option<string> {
    if text == "null" then None else Some(text)
  }

  function ReadVerdict(word: string): Result<Evidence, ParseError> {
    if word == "complete" then Success(Complete)
    else if word == "evicted" then Success(Evicted)
    else if word == "filtered" then Success(Filtered)
    else if word == "cannot_verify" then Success(CannotVerify)
    else Failure(BadVerdict(word))
  }

  function TakeText(top: map<string, Value>, key: Name): Result<string, ParseError> {
    var v :- Take(top, key);
    AsText(v, key)
  }

  /** The declared format, narrowed without wrapping; one newer than this reader's is refused. */
  function ReadFormat(top: map<string, Value>): Result<nat, ParseError> {
    var v :- Take(top, LogmonFormat);
    var declared :- AsU64(v, LogmonFormat);
    var format := if declared > MAX_U32 then MAX_U32 else declared;
    if format > FORMAT_VERSION then Failure(FormatTooNew(format)) else Success(format)
  }

  /** The fields read last; the others have been. */
  function InterpretRest<T>(
      codec: Codec<T>, top: map<string, Value>, format: nat, anchor: AnchorRef<T>, seqRange: SeqRange,
      narrowedBy: Option<seq<NarrowedSpan>>, provenance: Provenance, asserted: map<string, string>): Result<Document<T>, ParseError>
  {
    var incarnation :- TakeText(top, Incarnation);
    var verdictWord :- TakeText(top, Verdict);
    var verdict :- ReadVerdict(verdictWord);
    var stem :- TakeText(top, Case);
    var capturedText :- Take(top, CapturedAt);
    var capturedAt :- AsTime(codec, capturedText, CapturedAt);
    var domain :- TakeText(top, Domain);
    var reason :- TakeText(top, Reason);
    var headline :- TakeText(top, Headline);
    var logdata :- ReadFile(top, Logdata);
    var spandata :- ReadFile(top, Spandata);
    Success(Document(
      stem, format, capturedAt, domain, ReadIncarnation(incarnation), reason, anchor, headline, verdict, seqRange,
      logdata, spandata, narrowedBy, provenance, asserted))
  }

  function Interpret<T>(codec: Codec<T>, top: map<string, Value>): Result<Document<T>, ParseError> {
    var format :- ReadFormat(top);
    var anchorValue :- Take(top, Anchor);
    var anchor :- ReadAnchor(codec, anchorValue);
    var rangeValue :- Take(top, Name.SeqRange);
    var seqRange :- ReadRange(rangeValue);
    var narrowedBy :- ReadNarrowed(top);
    var provenanceValue :- Take(top, Name.Provenance);
    var provenance :- ReadProvenance(provenanceValue);
    var asserted :- ReadAsserted(top);
    InterpretRest(codec, top, format, anchor, seqRange, narrowedBy, provenance, asserted)
  }

  function ParsedFrontMatter<T>(codec: Codec<T>, doc: string): Result<Document<T>, ParseError> {
    match Fenced(doc)
    case None => Failure(NoFrontMatter)
    case Some(block) =>
      var top :- ReadLines(block, 1, map[]);
      Interpret(codec, top)
  }

  method ParseLine(number: nat, line: string) returns (r: Result<(string, Value), ParseError>)
    ensures r == ReadLine(number, line)
  {
    hide ValueFrom, Trim;
    var colon := Find(':', line);
    if colon == |line| {
      return Failure(MalformedLine(number, line));
    }
    var cur := new Cur(line[colon + 1..]);
    var value := cur.ParseValue();
    r := match value
      case Failure(e) => Failure(Unscannable(e))
      case Success(v) => Success((Trim(line[..colon]), v));
  }

  /** The reader as it runs: a cursor over each line, a map that grows. */
  method ParseFrontMatter<T>(codec: Codec<T>, doc: string) returns (r: Result<Document<T>, ParseError>)
    ensures r == ParsedFrontMatter(codec, doc)
  {
    hide ReadLine, Interpret, Trim, FindFence, AfterLine;
    var fenced := Fenced(doc);
    if fenced.None? {
      return Failure(NoFrontMatter);
    }
    var top: map<string, Value>, left, number := map[], fenced.value, 1;
    while left != ""
      invariant ReadLines(fenced.value, 1, map[]) == ReadLines(left, number, top)
      decreases |left|
    {
      var line := Trim(left[..Find('\n', left)]);
      if line != "" {
        var pair := ParseLine(number, line);
        if pair.Failure? {
          return Failure(pair.error);
        }
        top := top[pair.value.0 := pair.value.1];
      }
      left, number := AfterLine(left), number + 1;
    }
    r := Interpret(codec, top);
  }
}
