/** A case's evidence files: a header and one record a line, written and read back with their checks. */
module CaseRecords {
  import opened Text
  import opened FlowScanner
  import opened FrontMatter

  const MAX_CASE_RECORDS: nat := 10_000_000

  /** How a header and a record are written on a line, and read. */
  datatype LineCodec<!R> = LineCodec(
    showHeader: (nat, string) -> string, readHeader: string -> Option<(nat, string)>,
    show: R -> string, read: string -> Option<R>)

  /** Text that survives being a line of its own: not blank, no line break, no carriage return at its end. */
  predicate LineSafe(s: string) {
    '\n' !in s && Trim(s) != "" && s != "" && s[|s| - 1] != '\r'
  }

  ghost predicate Faithful<R(!new)>(c: LineCodec<R>) {
    && (forall r :: LineSafe(c.show(r)) && c.read(c.show(r)) == Some(r))
    && (forall k: string ::
          var header := c.showHeader(FORMAT_VERSION, k);
          LineSafe(header) && c.readHeader(header) == Some((FORMAT_VERSION, k)))
  }

  // ---- Writing -----------------------------------------------------------------------------------

  function RecordLines<R>(c: LineCodec<R>, records: seq<R>): string {
    if records == [] then "" else c.show(records[0]) + "\n" + RecordLines(c, records[1..])
  }

  function Jsonl<R>(c: LineCodec<R>, kind: string, records: seq<R>): string {
    c.showHeader(FORMAT_VERSION, kind) + "\n" + RecordLines(c, records)
  }

  /** The bytes a character takes in UTF-8. */
  function CharBytes(c: char): nat {
    if c < '\U{80}' then 1 else if c < '\U{800}' then 2 else if c < '\U{10000}' then 3 else 4
  }

  function Bytes(s: string): nat {
    if s == "" then 0 else CharBytes(s[0]) + Bytes(s[1..])
  }

  lemma {:induction false} BytesConcat(s: string, t: string)
    ensures Bytes(s + t) == Bytes(s) + Bytes(t)
  {
    if s == "" {
      assert s + t == t;
    } else {
      assert (s + t)[1..] == s[1..] + t;
      BytesConcat(s[1..], t);
    }
  }

  datatype FileStats = FileStats(records: nat, bytes: nat)

  /** The writer as it runs: line after line, counting as it goes. */
  method WriteJsonl<R>(c: LineCodec<R>, kind: string, records: seq<R>) returns (out: string, stats: FileStats)
    ensures out == Jsonl(c, kind, records)
    ensures stats == FileStats(|records|, Bytes(out))
  {
    out := c.showHeader(FORMAT_VERSION, kind) + "\n";
    var bytes, count := Bytes(out), 0;
    for i := 0 to |records|
      invariant out + RecordLines(c, records[i..]) == Jsonl(c, kind, records)
      invariant bytes == Bytes(out) && count == i
    {
      var line := c.show(records[i]) + "\n";
      assert records[i..][1..] == records[i + 1..];
      assert out + RecordLines(c, records[i..]) == (out + line) + RecordLines(c, records[i + 1..]);
      hide RecordLines, Jsonl;
      BytesConcat(out, line);
      out, bytes, count := out + line, bytes + Bytes(line), count + 1;
    }
    assert records[|records|..] == [] && out + "" == out;
    stats := FileStats(count, bytes);
  }

  // ---- Reading -----------------------------------------------------------------------------------

  datatype LoadError =
    | Unparsed(error: ParseError)
    | ForeignPointer(key: string, file: string)
    | DeclaredButMissing(file: string)
    | NotUtf8(file: string)
    | BadHeader(file: string)
    | BadRecord(file: string, number: nat)
    | TooManyRecords(count: nat)
    | CountMismatch(declared: nat, parsed: nat)
    | InvertedWindow
    | OutsideWindow(seqNo: nat)
    | NotAscending(seqNo: nat, previous: nat)

  /** What a file holds, if it is text at all. */
  datatype Content = Garbled | Plain(text: string)

  function StripCr(s: string): string {
    if s != "" && s[|s| - 1] == '\r' then s[..|s| - 1] else s
  }

  /** A carriage return belongs to the line's end only in front of a line feed. */
  function FirstLine(s: string): string {
    var end := Find('\n', s);
    if end < |s| then StripCr(s[..end]) else s
  }

  function GoodHeader<R>(c: LineCodec<R>, header: string, kind: string): bool {
    match c.readHeader(header)
    case None => false
    case Some((format, found)) => format <= FORMAT_VERSION && found == kind
  }

  /** The records from `text` on, `out` having been read; `number` counts lines. */
  function RecordsFrom<R>(c: LineCodec<R>, file: string, text: string, number: nat, out: seq<R>): Result<seq<R>, LoadError>
    decreases |text|
  {
    if text == "" then Success(out)
    else if Trim(FirstLine(text)) == "" then RecordsFrom(c, file, AfterLine(text), number + 1, out)
    else if |out| >= MAX_CASE_RECORDS then Failure(TooManyRecords(|out| + 1))
    else match c.read(FirstLine(text))
      case None => Failure(BadRecord(file, number))
      case Some(r) => RecordsFrom(c, file, AfterLine(text), number + 1, out + [r])
  }

  /** Declared and there: evidence. Not declared: left out. Declared and not there: corruption. */
  function Evidence<R>(c: LineCodec<R>, declared: Option<FileRef>, content: Option<Content>, kind: string)
    : Result<Option<seq<R>>, LoadError>
  {
    if declared.None? then Success(None)
    else
      var d := declared.value;
      if content.None? then Failure(DeclaredButMissing(d.file))
      else if content.value.Garbled? then Failure(NotUtf8(d.file))
      else
        var text := content.value.text;
        if text == "" || !GoodHeader(c, FirstLine(text), kind) then Failure(BadHeader(d.file))
        else
          var records :- RecordsFrom(c, d.file, AfterLine(text), 0, []);
          if |records| != d.records then Failure(CountMismatch(d.records, |records|)) else Success(Some(records))
  }

  method ReadEvidence<R>(c: LineCodec<R>, declared: Option<FileRef>, content: Option<Content>, kind: string)
    returns (r: Result<Option<seq<R>>, LoadError>)
    ensures r == Evidence(c, declared, content, kind)
  {
    hide FirstLine, AfterLine, GoodHeader, Trim;
    if declared.None? {
      return Success(None);
    }
    var d := declared.value;
    if content.None? {
      return Failure(DeclaredButMissing(d.file));
    }
    if content.value.Garbled? {
      return Failure(NotUtf8(d.file));
    }
    var text := content.value.text;
    if text == "" || !GoodHeader(c, FirstLine(text), kind) {
      return Failure(BadHeader(d.file));
    }
    var left, number, out := AfterLine(text), 0, [];
    while left != ""
      invariant RecordsFrom(c, d.file, AfterLine(text), 0, []) == RecordsFrom(c, d.file, left, number, out)
      decreases |left|
    {
      var line := FirstLine(left);
      if Trim(line) != "" {
        // Checked before the record is kept: the ceiling is what bounds the memory.
        if |out| >= MAX_CASE_RECORDS {
          return Failure(TooManyRecords(|out| + 1));
        }
        var rec := c.read(line);
        if rec.None? {
          return Failure(BadRecord(d.file, number));
        }
        out := out + [rec.value];
      }
      left, number := AfterLine(left), number + 1;
    }
    r := if |out| != d.records then Failure(CountMismatch(d.records, |out|)) else Success(Some(out));
  }

  // ---- Reading what was written ------------------------------------------------------------------

  lemma LineThenRest(s: string, rest: string)
    requires LineSafe(s)
    ensures FirstLine(s + "\n" + rest) == s && AfterLine(s + "\n" + rest) == rest
  {
    FindPast('\n', s, "\n" + rest);
    assert s + "\n" + rest == s + ("\n" + rest);
    hide Find, Trim;
    assert (s + "\n" + rest)[..|s|] == s && (s + "\n" + rest)[|s| + 1..] == rest;
  }

  lemma OneRecordRead<R(!new)>(c: LineCodec<R>, file: string, r: R, rest: string, number: nat, out: seq<R>)
    requires Faithful(c)
    ensures RecordsFrom(c, file, c.show(r) + "\n" + rest, number, out) ==
            if |out| >= MAX_CASE_RECORDS then Failure(TooManyRecords(|out| + 1))
            else RecordsFrom(c, file, rest, number + 1, out + [r])
  {
    LineThenRest(c.show(r), rest);
    hide FirstLine, AfterLine, Trim;
  }

  lemma {:induction false} RecordsReadBack<R(!new)>(c: LineCodec<R>, file: string, records: seq<R>, number: nat, out: seq<R>)
    requires Faithful(c) && |out| <= MAX_CASE_RECORDS
    ensures RecordsFrom(c, file, RecordLines(c, records), number, out) ==
            if |out| + |records| <= MAX_CASE_RECORDS then Success(out + records) else Failure(TooManyRecords(MAX_CASE_RECORDS + 1))
    decreases |records|
  {
    if records == [] {
      assert out + records == out;
    } else {
      assert RecordLines(c, records) == c.show(records[0]) + "\n" + RecordLines(c, records[1..]);
      assert out + [records[0]] + records[1..] == out + records;
      hide RecordsFrom, RecordLines, Faithful;
      OneRecordRead(c, file, records[0], RecordLines(c, records[1..]), number, out);
      if |out| < MAX_CASE_RECORDS {
        RecordsReadBack(c, file, records[1..], number + 1, out + [records[0]]);
      }
    }
  }

  /**
   A file written for some records is read back as exactly those, for any line-safe encoding, if and
   only if the document declares their number and they are not more than a domain may hold.
   */
  lemma WrittenEvidenceReads<R(!new)>(c: LineCodec<R>, d: FileRef, kind: string, records: seq<R>)
    requires Faithful(c)
    ensures Evidence(c, Some(d), Some(Plain(Jsonl(c, kind, records))), kind) == Success(Some(records))
            <==> d.records == |records| && |records| <= MAX_CASE_RECORDS
  {
    var header := c.showHeader(FORMAT_VERSION, kind);
    LineThenRest(header, RecordLines(c, records));
    RecordsReadBack(c, d.file, records, 0, []);
    assert GoodHeader(c, header, kind);
    assert Jsonl(c, kind, records) == header + "\n" + RecordLines(c, records);
    hide FirstLine, AfterLine, RecordsFrom, RecordLines, Faithful, GoodHeader, Jsonl;
    assert [] + records == records;
  }

  /** Left out, empty and lost are three different answers. */
  lemma ThreeAnswers<R(!new)>(c: LineCodec<R>, d: FileRef, content: Option<Content>, kind: string)
    requires Faithful(c) && d.records == 0
    ensures Evidence(c, None, content, kind) == Success(None)
    ensures Evidence(c, Some(d), Some(Plain(Jsonl(c, kind, []))), kind) == Success(Some([]))
    ensures Evidence(c, Some(d), None, kind) == Failure(DeclaredButMissing(d.file))
    ensures Evidence(c, Some(d), content, kind) != Success(None)
  {
    WrittenEvidenceReads(c, d, kind, []);
    hide RecordsFrom, FirstLine, AfterLine;
  }

  /** A file of one kind is never read as another's. */
  lemma SwappedFilesRefused<R(!new)>(c: LineCodec<R>, d: FileRef, kind: string, wanted: string, records: seq<R>)
    requires Faithful(c) && kind != wanted
    ensures Evidence(c, Some(d), Some(Plain(Jsonl(c, kind, records))), wanted) == Failure(BadHeader(d.file))
  {
    LineThenRest(c.showHeader(FORMAT_VERSION, kind), RecordLines(c, records));
    hide FirstLine, AfterLine, RecordsFrom, RecordLines;
  }

  // ---- The whole case ----------------------------------------------------------------------------

  /** Strictly ascending and inside the window. */
  ghost predicate InOrder<R>(seqNo: R -> nat, records: seq<R>, from: nat, to: nat) {
    && (forall i :: 0 <= i < |records| ==> from <= seqNo(records[i]) <= to)
    && (forall i, j :: 0 <= i < j < |records| ==> seqNo(records[i]) < seqNo(records[j]))
  }

  /** The first record out of place, from number `i` on. */
  function SeqsFrom<R>(seqNo: R -> nat, records: seq<R>, i: nat, from: nat, to: nat): Option<LoadError>
    requires i <= |records|
    decreases |records| - i
  {
    if i == |records| then None
    else
      var s := seqNo(records[i]);
      if s < from || s > to then Some(OutsideWindow(s))
      else if i > 0 && s <= seqNo(records[i - 1]) then Some(NotAscending(s, seqNo(records[i - 1])))
      else SeqsFrom(seqNo, records, i + 1, from, to)
  }

  function CheckSeqs<R>(seqNo: R -> nat, records: Option<seq<R>>, from: nat, to: nat): Option<LoadError> {
    if records.None? then None
    else if from > to then Some(InvertedWindow)
    else SeqsFrom(seqNo, records.value, 0, from, to)
  }

  method ValidateSeqs<R>(seqNo: R -> nat, records: Option<seq<R>>, from: nat, to: nat) returns (e: Option<LoadError>)
    ensures e == CheckSeqs(seqNo, records, from, to)
  {
    if records.None? {
      return None;
    }
    if from > to {
      return Some(InvertedWindow);
    }
    var previous: Option<nat> := None;
    for i := 0 to |records.value|
      invariant SeqsFrom(seqNo, records.value, 0, from, to) == SeqsFrom(seqNo, records.value, i, from, to)
      invariant previous == if i == 0 then None else Some(seqNo(records.value[i - 1]))
    {
      var s := seqNo(records.value[i]);
      if s < from || s > to {
        return Some(OutsideWindow(s));
      }
      if previous.Some? && s <= previous.value {
        return Some(NotAscending(s, previous.value));
      }
      previous := Some(s);
    }
    e := None;
  }

  lemma OneMoreInOrder<R>(seqNo: R -> nat, records: seq<R>, i: nat, from: nat, to: nat)
    requires i < |records| && InOrder(seqNo, records[..i], from, to) && from <= seqNo(records[i]) <= to
    requires i > 0 ==> seqNo(records[i - 1]) < seqNo(records[i])
    ensures InOrder(seqNo, records[..i + 1], from, to)
  {
    var (before, after) := (records[..i], records[..i + 1]);
    assert after == before + [records[i]];
    assert i > 0 ==> before[i - 1] == records[i - 1];
    assert forall j :: 0 <= j < i - 1 ==> seqNo(before[j]) < seqNo(before[i - 1]);
  }

  lemma {:induction false} SeqsOk<R>(seqNo: R -> nat, records: seq<R>, i: nat, from: nat, to: nat)
    requires i <= |records| && InOrder(seqNo, records[..i], from, to)
    ensures SeqsFrom(seqNo, records, i, from, to).None? <==> InOrder(seqNo, records, from, to)
    decreases |records| - i
  {
    if i == |records| {
      assert records[..i] == records;
    } else {
      var s := seqNo(records[i]);
      if from <= s <= to && (i == 0 || seqNo(records[i - 1]) < s) {
        OneMoreInOrder(seqNo, records, i, from, to);
        SeqsOk(seqNo, records, i + 1, from, to);
      }
    }
  }

  /** The check accepts exactly the records the stores can hold. */
  lemma ChecksExactly<R>(seqNo: R -> nat, records: seq<R>, from: nat, to: nat)
    ensures CheckSeqs(seqNo, Some(records), from, to).None? <==> from <= to && InOrder(seqNo, records, from, to)
  {
    if from <= to {
      SeqsOk(seqNo, records, 0, from, to);
    }
  }

  /** What the front matter says about a case's evidence. */
  datatype Declared = Declared(logdata: Option<FileRef>, spandata: Option<FileRef>, from: U64, to: U64)

  datatype Loaded<L, S> = Loaded(logs: Option<seq<L>>, spans: Option<seq<S>>)

  function CheckPointer(key: string, declared: Option<FileRef>, want: string): Option<LoadError> {
    if declared.Some? && declared.value.file != want then Some(ForeignPointer(key, declared.value.file)) else None
  }

  function Count<R>(records: Option<seq<R>>): nat {
    if records.Some? then |records.value| else 0
  }

  const LOGDATA := "logdata"
  const SPANDATA := "spandata"

  function Load<L, S>(
      lc: LineCodec<L>, sc: LineCodec<S>, logSeq: L -> nat, spanSeq: S -> nat, d: Declared,
      wantLog: string, wantSpan: string, logs: Option<Content>, spans: Option<Content>): Result<Loaded<L, S>, LoadError>
  {
    var e1 := CheckPointer(LOGDATA, d.logdata, wantLog);
    var e2 := CheckPointer(SPANDATA, d.spandata, wantSpan);
    if e1.Some? then Failure(e1.value) else if e2.Some? then Failure(e2.value)
    else
      var ls :- Evidence(lc, d.logdata, logs, LOGDATA);
      var ss :- Evidence(sc, d.spandata, spans, SPANDATA);
      var total := Count(ls) + Count(ss);
      var e3 := CheckSeqs(logSeq, ls, d.from, d.to);
      var e4 := CheckSeqs(spanSeq, ss, d.from, d.to);
      if total > MAX_CASE_RECORDS then Failure(TooManyRecords(total))
      else if e3.Some? then Failure(e3.value) else if e4.Some? then Failure(e4.value)
      else Success(Loaded(ls, ss))
  }

  /** What an accepted file of evidence is: left out exactly if undeclared, otherwise complete and in order. */
  ghost predicate Sound<R>(seqNo: R -> nat, declared: Option<FileRef>, records: Option<seq<R>>, want: string, from: nat, to: nat) {
    && (declared.Some? <==> records.Some?)
    && (declared.Some? ==>
          && declared.value.file == want && |records.value| == declared.value.records
          && from <= to && InOrder(seqNo, records.value, from, to))
  }

  lemma EvidenceCounted<R>(c: LineCodec<R>, declared: Option<FileRef>, content: Option<Content>, kind: string)
    requires Evidence(c, declared, content, kind).Success?
    ensures var r := Evidence(c, declared, content, kind).value;
      (declared.Some? <==> r.Some?) && (declared.Some? ==> |r.value| == declared.value.records)
  {
    hide RecordsFrom, FirstLine, AfterLine, GoodHeader;
  }

  /** Any case that is accepted is complete, bounded, and what the stores require, whatever the files hold. */
  lemma AcceptedIsSound<L, S>(
      lc: LineCodec<L>, sc: LineCodec<S>, logSeq: L -> nat, spanSeq: S -> nat, d: Declared,
      wantLog: string, wantSpan: string, logs: Option<Content>, spans: Option<Content>)
    requires Load(lc, sc, logSeq, spanSeq, d, wantLog, wantSpan, logs, spans).Success?
    ensures var r := Load(lc, sc, logSeq, spanSeq, d, wantLog, wantSpan, logs, spans).value;
      && Sound(logSeq, d.logdata, r.logs, wantLog, d.from, d.to) && Sound(spanSeq, d.spandata, r.spans, wantSpan, d.from, d.to)
      && Count(r.logs) + Count(r.spans) <= MAX_CASE_RECORDS
  {
    EvidenceCounted(lc, d.logdata, logs, LOGDATA);
    EvidenceCounted(sc, d.spandata, spans, SPANDATA);
    var r := Load(lc, sc, logSeq, spanSeq, d, wantLog, wantSpan, logs, spans).value;
    if r.logs.Some? { ChecksExactly(logSeq, r.logs.value, d.from, d.to); }
    if r.spans.Some? { ChecksExactly(spanSeq, r.spans.value, d.from, d.to); }
    hide Evidence, SeqsFrom, InOrder;
  }

  /** What was found under an evidence file's name: what was written, if the document declares it, else anything. */
  ghost predicate Written<R>(
      c: LineCodec<R>, declared: Option<FileRef>, records: Option<seq<R>>, content: Option<Content>, kind: string)
  {
    && (declared.Some? <==> records.Some?)
    && (records.Some? ==> content == Some(Plain(Jsonl(c, kind, records.value))))
  }

  lemma WrittenReads<R(!new)>(
      c: LineCodec<R>, declared: Option<FileRef>, records: Option<seq<R>>, content: Option<Content>, kind: string)
    requires Faithful(c) && Written(c, declared, records, content, kind)
    ensures Evidence(c, declared, content, kind) == Success(records) <==>
              (declared.Some? ==> declared.value.records == Count(records) && Count(records) <= MAX_CASE_RECORDS)
  {
    if declared.Some? {
      WrittenEvidenceReads(c, declared.value, kind, records.value);
    }
    hide Evidence, Faithful, Jsonl;
  }

  lemma SoundWhen<R>(
      seqNo: R -> nat, declared: Option<FileRef>, records: Option<seq<R>>, want: string, key: string, from: nat, to: nat)
    requires declared.Some? <==> records.Some?
    ensures Sound(seqNo, declared, records, want, from, to) <==>
              && CheckPointer(key, declared, want).None? && CheckSeqs(seqNo, records, from, to).None?
              && (declared.Some? ==> declared.value.records == Count(records))
  {
    if records.Some? { ChecksExactly(seqNo, records.value, from, to); }
    hide SeqsFrom, InOrder;
  }

  /**
   A case whose files were written loads with exactly the records written, and with none where none were
   declared, if and only if what the document declares is true of them and the stores can hold them.
   */
  lemma WrittenCaseLoads<L(!new), S(!new)>(
      lc: LineCodec<L>, sc: LineCodec<S>, logSeq: L -> nat, spanSeq: S -> nat, d: Declared, wantLog: string, wantSpan: string,
      ls: Option<seq<L>>, ss: Option<seq<S>>, logs: Option<Content>, spans: Option<Content>)
    requires Faithful(lc) && Faithful(sc)
    requires Written(lc, d.logdata, ls, logs, LOGDATA) && Written(sc, d.spandata, ss, spans, SPANDATA)
    ensures Load(lc, sc, logSeq, spanSeq, d, wantLog, wantSpan, logs, spans) == Success(Loaded(ls, ss)) <==>
              && Sound(logSeq, d.logdata, ls, wantLog, d.from, d.to) && Sound(spanSeq, d.spandata, ss, wantSpan, d.from, d.to)
              && Count(ls) + Count(ss) <= MAX_CASE_RECORDS
  {
    WrittenReads(lc, d.logdata, ls, logs, LOGDATA);
    WrittenReads(sc, d.spandata, ss, spans, SPANDATA);
    SoundWhen(logSeq, d.logdata, ls, wantLog, LOGDATA, d.from, d.to);
    SoundWhen(spanSeq, d.spandata, ss, wantSpan, SPANDATA, d.from, d.to);
    hide Evidence, Sound, CheckSeqs, CheckPointer, Faithful, Written;
  }

  // ---- What a reader passes over, and what it refuses --------------------------------------------

  /** A header of a newer format is refused, whatever follows it. */
  lemma NewerFormatRefused<R>(c: LineCodec<R>, d: FileRef, text: string, kind: string, format: nat, found: string)
    requires text != "" && c.readHeader(FirstLine(text)) == Some((format, found)) && format > FORMAT_VERSION
    ensures Evidence(c, Some(d), Some(Plain(text)), kind) == Failure(BadHeader(d.file))
  {
    hide FirstLine, RecordsFrom;
  }

  /** A blank line is no record, but counts as a line. */
  lemma BlankPassedOver<R>(c: LineCodec<R>, file: string, text: string, number: nat, out: seq<R>)
    requires text != "" && Trim(FirstLine(text)) == ""
    ensures RecordsFrom(c, file, text, number, out) == RecordsFrom(c, file, AfterLine(text), number + 1, out)
  {
    hide FirstLine, AfterLine, Trim;
  }

  /** A line that is no record is refused by its number; one that is, is kept as far as there is room. */
  lemma LineRead<R>(c: LineCodec<R>, file: string, text: string, number: nat, out: seq<R>)
    requires text != "" && Trim(FirstLine(text)) != ""
    ensures
      RecordsFrom(c, file, text, number, out) ==
        if |out| >= 10_000_000 then Failure(TooManyRecords(|out| + 1))
        else if c.read(FirstLine(text)).None? then Failure(BadRecord(file, number))
        else RecordsFrom(c, file, AfterLine(text), number + 1, out + [c.read(FirstLine(text)).value])
  {
    hide FirstLine, AfterLine, Trim;
  }

  /** What is not there, is not text or has the wrong name is refused as such. */
  lemma Refusals<R>(c: LineCodec<R>, d: FileRef, kind: string, want: string, key: string)
    ensures Evidence(c, Some(d), None, kind) == Failure(DeclaredButMissing(d.file))
    ensures Evidence(c, Some(d), Some(Garbled), kind) == Failure(NotUtf8(d.file))
    ensures Evidence(c, Some(d), Some(Plain("")), kind) == Failure(BadHeader(d.file))
    ensures d.file != want ==> CheckPointer(key, Some(d), want) == Some(ForeignPointer(key, d.file))
  {
    hide RecordsFrom;
  }

  /** The first record out of place is what the check reports. */
  lemma {:induction false} FirstOutOfPlace<R>(seqNo: R -> nat, records: seq<R>, i: nat, n: nat, from: nat, to: nat)
    requires i <= n < |records| && InOrder(seqNo, records[..n], from, to)
    requires !InOrder(seqNo, records[..n + 1], from, to)
    ensures seqNo(records[n]) < from || seqNo(records[n]) > to ==>
              SeqsFrom(seqNo, records, i, from, to) == Some(OutsideWindow(seqNo(records[n])))
    ensures from <= seqNo(records[n]) <= to ==>
              n > 0 && SeqsFrom(seqNo, records, i, from, to) == Some(NotAscending(seqNo(records[n]), seqNo(records[n - 1])))
    decreases n - i
  {
    assert forall j :: 0 <= j < n ==> records[..n][j] == records[j];
    if i < n {
      FirstOutOfPlace(seqNo, records, i + 1, n, from, to);
    } else if from <= seqNo(records[n]) <= to && (n == 0 || seqNo(records[n - 1]) < seqNo(records[n])) {
      OneMoreInOrder(seqNo, records, n, from, to);
    }
  }

  /** How many bytes each character takes in UTF-8, at the edges of the four ranges. */
  lemma CharBytesAre(s: string)
    ensures CharBytes('\U{0}') == 1 == CharBytes('\U{7f}') && CharBytes('\U{80}') == 2 == CharBytes('\U{7ff}')
    ensures CharBytes('\U{800}') == 3 == CharBytes('\U{ffff}') && CharBytes('\U{10000}') == 4 == CharBytes('\U{10ffff}')
  {
  }

  /** Two files that are each within the ceiling but together above it are refused for that, whatever else is wrong. */
  lemma TooManyComesFirst<L, S>(
      lc: LineCodec<L>, sc: LineCodec<S>, logSeq: L -> nat, spanSeq: S -> nat, d: Declared,
      wantLog: string, wantSpan: string, logs: Option<Content>, spans: Option<Content>)
    requires CheckPointer(LOGDATA, d.logdata, wantLog).None? && CheckPointer(SPANDATA, d.spandata, wantSpan).None?
    requires Evidence(lc, d.logdata, logs, LOGDATA).Success? && Evidence(sc, d.spandata, spans, SPANDATA).Success?
    ensures var n := Count(Evidence(lc, d.logdata, logs, LOGDATA).value) + Count(Evidence(sc, d.spandata, spans, SPANDATA).value);
      n > 10_000_000 <==> Load(lc, sc, logSeq, spanSeq, d, wantLog, wantSpan, logs, spans) == Failure(TooManyRecords(n))
  {
    var ls := Evidence(lc, d.logdata, logs, LOGDATA).value;
    var ss := Evidence(sc, d.spandata, spans, SPANDATA).value;
    hide Evidence, CheckPointer;
    SeqsNeverTooMany(logSeq, ls, d.from, d.to);
    SeqsNeverTooMany(spanSeq, ss, d.from, d.to);
    hide CheckSeqs;
  }

  lemma SeqsNeverTooMany<R>(seqNo: R -> nat, records: Option<seq<R>>, from: nat, to: nat)
    ensures var e := CheckSeqs(seqNo, records, from, to); e.Some? ==> !e.value.TooManyRecords?
  {
    if records.Some? && from <= to {
      SeqErrors(seqNo, records.value, 0, from, to);
    }
  }

  lemma {:induction false} SeqErrors<R>(seqNo: R -> nat, records: seq<R>, i: nat, from: nat, to: nat)
    requires i <= |records|
    ensures var e := SeqsFrom(seqNo, records, i, from, to); e.Some? ==> e.value.OutsideWindow? || e.value.NotAscending?
    decreases |records| - i
  {
    if i < |records| {
      SeqErrors(seqNo, records, i + 1, from, to);
    }
  }

  /** Lines after the header are numbered from nought. */
  lemma FirstLineIsNought<R>(c: LineCodec<R>, d: FileRef, text: string, kind: string)
    requires text != "" && GoodHeader(c, FirstLine(text), kind)
    requires AfterLine(text) != "" && Trim(FirstLine(AfterLine(text))) != "" && c.read(FirstLine(AfterLine(text))).None?
    ensures Evidence(c, Some(d), Some(Plain(text)), kind) == Failure(BadRecord(d.file, 0))
  {
    hide FirstLine, AfterLine, Trim, GoodHeader;
  }
}
