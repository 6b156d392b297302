/** Loading a case from its three loose files: the document says what to expect of the other two. */
module CaseLoad {
  import opened Text
  import opened FlowPrinter
  import FrontMatter
  import FrontMatterFormat
  import FrontMatterRoundTrip
  import CaseClaim
  import opened CaseRecords

  type Document<!T> = FrontMatter.Document<T>
  type Capture<!T> = FrontMatter.Capture<T>

  datatype LoadedCase<!T, L, S> = LoadedCase(stem: string, front: Document<T>, logs: Option<seq<L>>, spans: Option<seq<S>>)

  /** How instants, logs and spans are written and read, and where a log or span has its number. */
  datatype Codecs<!T, !L, !S> = Codecs(
    times: FrontMatter.Codec<T>, logs: LineCodec<L>, spans: LineCodec<S>, logSeq: L -> nat, spanSeq: S -> nat)

  ghost predicate AllFaithful<T(!new), L(!new), S(!new)>(c: Codecs<T, L, S>) {
    FrontMatter.Faithful(c.times) && Faithful(c.logs) && Faithful(c.spans)
  }

  function LogFile(stem: string): string {
    CaseClaim.FileName(stem, 1)
  }

  function SpanFile(stem: string): string {
    CaseClaim.FileName(stem, 2)
  }

  function DeclaredBy<T>(front: Document<T>): Declared {
    Declared(front.logdata, front.spandata, front.seqRange.from, front.seqRange.to)
  }

  /** The document under a stem is parsed first; what it declares is then looked for in the stem's other two files. */
  function LoadCase<T, L, S>(
      c: Codecs<T, L, S>, stem: string, document: Content, logs: Option<Content>, spans: Option<Content>)
    : Result<LoadedCase<T, L, S>, LoadError>
  {
    if document.Garbled? then Failure(NotUtf8(CaseClaim.FileName(stem, 0)))
    else match FrontMatter.ParsedFrontMatter(c.times, document.text)
      case Failure(e) => Failure(Unparsed(e))
      case Success(front) =>
        var found :- Load(c.logs, c.spans, c.logSeq, c.spanSeq, DeclaredBy(front), LogFile(stem), SpanFile(stem), logs, spans);
        Success(LoadedCase(stem, front, found.logs, found.spans))
  }

  /** What the document declares is true of the records, and the stores can hold them. */
  ghost predicate Fits<T, L, S>(c: Codecs<T, L, S>, stem: string, d: Declared, ls: Option<seq<L>>, ss: Option<seq<S>>) {
    && Sound(c.logSeq, d.logdata, ls, LogFile(stem), d.from, d.to)
    && Sound(c.spanSeq, d.spandata, ss, SpanFile(stem), d.from, d.to)
    && Count(ls) + Count(ss) <= MAX_CASE_RECORDS
  }

  /**
   A case whose document was printed and whose files were written loads as captured, whatever body the
   document has, if and only if the capture declares its evidence truly.
   */
  lemma CapturedCaseLoads<T(!new), L(!new), S(!new)>(
      c: Codecs<T, L, S>, stem: string, k: Capture<T>, body: string,
      ls: Option<seq<L>>, ss: Option<seq<S>>, logs: Option<Content>, spans: Option<Content>)
    requires AllFaithful(c) && Clean(false, k.stem)
    requires Written(c.logs, k.logdata, ls, logs, LOGDATA) && Written(c.spans, k.spandata, ss, spans, SPANDATA)
    ensures LoadCase(c, stem, Plain(FrontMatter.FrontMatterText(c.times, k) + body), logs, spans)
              == Success(LoadedCase(stem, FrontMatterRoundTrip.ReadBack(k), ls, ss))
            <==> Fits(c, stem, Declared(k.logdata, k.spandata, k.window.from, k.window.to), ls, ss)
  {
    var front := FrontMatterRoundTrip.ReadBack(k);
    var d := DeclaredBy(front);
    assert d == Declared(k.logdata, k.spandata, k.window.from, k.window.to);
    hide Clean, FrontMatter.ParsedFrontMatter, FrontMatter.FrontMatterText, FrontMatterRoundTrip.ReadBack, Load, Sound, Written,
      Faithful, FrontMatter.Faithful;
    FrontMatterRoundTrip.ReadsBack(c.times, k, body);
    WrittenCaseLoads(c.logs, c.spans, c.logSeq, c.spanSeq, d, LogFile(stem), SpanFile(stem), ls, ss, logs, spans);
  }

  /** Whatever the three files hold, an accepted case is what its document declares and the stores require. */
  lemma LoadedCaseFits<T, L, S>(
      c: Codecs<T, L, S>, stem: string, document: Content, logs: Option<Content>, spans: Option<Content>)
    requires LoadCase(c, stem, document, logs, spans).Success?
    ensures var r := LoadCase(c, stem, document, logs, spans).value;
      && document.Plain? && FrontMatter.ParsedFrontMatter(c.times, document.text) == Success(r.front)
      && Fits(c, stem, DeclaredBy(r.front), r.logs, r.spans)
  {
    var front := LoadCase(c, stem, document, logs, spans).value.front;
    AcceptedIsSound(c.logs, c.spans, c.logSeq, c.spanSeq, DeclaredBy(front), LogFile(stem), SpanFile(stem), logs, spans);
    hide Load, Sound, FrontMatter.ParsedFrontMatter;
  }

  /** A case is three files, and the document is read first: what is wrong with it is what is reported. */
  lemma DocumentComesFirst<T, L, S>(
      c: Codecs<T, L, S>, stem: string, text: string, logs: Option<Content>, spans: Option<Content>)
    ensures LogFile(stem) == stem + ".logdata.jsonl" && SpanFile(stem) == stem + ".spandata.jsonl"
    ensures LoadCase(c, stem, Garbled, logs, spans) == Failure(NotUtf8(stem + ".md"))
    ensures !("---\n" <= text) ==> LoadCase(c, stem, Plain(text), logs, spans) == Failure(Unparsed(FrontMatter.NoFrontMatter))
    ensures FrontMatter.ParsedFrontMatter(c.times, text).Failure? ==>
      LoadCase(c, stem, Plain(text), logs, spans) == Failure(Unparsed(FrontMatter.ParsedFrontMatter(c.times, text).error))
  {
    if !("---\n" <= text) {
      FrontMatterFormat.UnfencedRefused(c.times, text);
    }
    hide FrontMatter.ParsedFrontMatter, Load;
  }
}
