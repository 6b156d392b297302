/**
 Deciding that two filters matched the same spans by comparing a canonical form.

 The form forgets the order of qualifiers, which carries no meaning. It also forgets the case of field
 names and of substrings, which sometimes does; and it does not mark where a field name ends.
 */
module CanonicalFilter {
  import opened Text
  import opened Sorting
  import opened CollectorNames

  datatype Pattern = Substring(text: string) | Regex(source: string, ignoreCase: bool)

  datatype Selector =
    | Message | FullMessage | MessageOrFull | Host | Facility | File | Line
    | SpanName | ServiceName | SpanStatus | SpanKind
    | AdditionalField(field: string)

  datatype Level = Trace | Debug | Info | Warn | Error
  datatype LevelOp = LevelEq | LevelGte | LevelLte
  datatype Order = Gt | Lt | Gte | Lte

  type Bits = n: nat | n < TWO_64

  datatype Qualifier =
    | BarePattern(pattern: Pattern)
    | SelectorPattern(selector: Selector, pattern: Pattern)
    | LevelFilter(levelOp: LevelOp, level: Level)
    | DurationFilter(atLeast: bool, bits: Bits)
    | BookmarkFilter(order: Order, name: string)
    | CursorFilter(name: string)
    | SeqFilter(order: Order, value: nat)
    | CursorSeq(after: nat)

  datatype Filter = All | Nothing | Qualifiers(qualifiers: seq<Qualifier>)

  datatype Status = Unset | Fine | Failed(message: string)

  datatype Span = Span(
    name: string, service: string, status: Status, kind: string, attributes: map<string, string>, duration: real, seqNo: nat)

  /** What the matcher leaves to others: case folding, regular expressions, and the value of a bit pattern. */
  datatype Env = Env(lower: string -> string, regex: (string, bool, string) -> bool, float: Bits -> real)

  // ---- What a filter accepts ---------------------------------------------------------------------

  predicate MatchesPattern(env: Env, p: Pattern, text: string) {
    match p
    case Substring(s) => Contains(env.lower(text), env.lower(s))
    case Regex(source, ignoreCase) => env.regex(source, ignoreCase, text)
  }

  function StatusWord(env: Env, p: Pattern): string {
    match p case Substring(s) => s case Regex(source, _) => env.lower(source)
  }

  predicate MatchesStatus(env: Env, p: Pattern, status: Status) {
    match status
    case Failed(message) => StatusWord(env, p) == "error" || MatchesPattern(env, p, message)
    case Fine => StatusWord(env, p) == "ok"
    case Unset => StatusWord(env, p) == "unset"
  }

  predicate Matches(env: Env, q: Qualifier, span: Span) {
    match q
    case BarePattern(p) => MatchesPattern(env, p, span.name)
    case SelectorPattern(SpanName, p) => MatchesPattern(env, p, span.name)
    case SelectorPattern(ServiceName, p) => MatchesPattern(env, p, span.service)
    case SelectorPattern(SpanStatus, p) => MatchesStatus(env, p, span.status)
    case SelectorPattern(SpanKind, p) => MatchesPattern(env, p, span.kind)
    case SelectorPattern(AdditionalField(f), p) => f in span.attributes && MatchesPattern(env, p, span.attributes[f])
    case SelectorPattern(_, _) => false
    case DurationFilter(atLeast, bits) => if atLeast then span.duration >= env.float(bits) else span.duration <= env.float(bits)
    case SeqFilter(order, value) => if order == Gt then span.seqNo > value else span.seqNo < value
    case CursorSeq(after) => span.seqNo > after
    case _ => false
  }

  predicate Accepts(env: Env, f: Filter, span: Span) {
    match f
    case All => true
    case Nothing => false
    case Qualifiers(qs) => forall i :: 0 <= i < |qs| ==> Matches(env, qs[i], span)
  }

  // ---- The canonical form ------------------------------------------------------------------------

  function SelectorText(env: Env, s: Selector): string {
    match s
    case Message => "Message"
    case FullMessage => "FullMessage"
    case MessageOrFull => "MessageOrFull"
    case Host => "Host"
    case Facility => "Facility"
    case File => "File"
    case Line => "Line"
    case SpanName => "SpanName"
    case ServiceName => "ServiceName"
    case SpanStatus => "SpanStatus"
    case SpanKind => "SpanKind"
    case AdditionalField(f) => "af" + ":" + env.lower(f)
  }

  function PatternText(env: Env, p: Pattern): string {
    match p
    case Substring(s) => "sub" + ":" + env.lower(s)
    case Regex(source, ignoreCase) => "re" + ":" + ((if ignoreCase then "true" else "false") + ":" + source)
  }

  function LevelText(l: Level): string {
    match l case Trace => "Trace" case Debug => "Debug" case Info => "Info" case Warn => "Warn" case Error => "Error"
  }

  function LevelOpText(o: LevelOp): string {
    match o case LevelEq => "Eq" case LevelGte => "Gte" case LevelLte => "Lte"
  }

  function OrderText(o: Order): string {
    match o case Gt => "Gt" case Lt => "Lt" case Gte => "Gte" case Lte => "Lte"
  }

  function Tag(q: Qualifier): string {
    match q
    case BarePattern(_) => "bare"
    case SelectorPattern(_, _) => "sel"
    case LevelFilter(_, _) => "lvl"
    case DurationFilter(_, _) => "dur"
    case BookmarkFilter(_, _) => "bm"
    case CursorFilter(_) => "cur"
    case SeqFilter(_, _) => "seq"
    case CursorSeq(_) => "curseq"
  }

  function Rest(env: Env, q: Qualifier): string {
    match q
    case BarePattern(p) => PatternText(env, p)
    case SelectorPattern(s, p) => SelectorText(env, s) + ":" + PatternText(env, p)
    case LevelFilter(o, l) => LevelOpText(o) + ":" + LevelText(l)
    case DurationFilter(atLeast, bits) => (if atLeast then "gte" else "lte") + ":" + HexText(bits, 16)
    case BookmarkFilter(o, name) => OrderText(o) + ":" + name
    case CursorFilter(name) => name
    case SeqFilter(o, value) => OrderText(o) + ":" + NatText(value)
    case CursorSeq(after) => NatText(after)
  }

  function QualifierText(env: Env, q: Qualifier): string {
    Tag(q) + ":" + Rest(env, q)
  }

  function Texts(env: Env, qs: seq<Qualifier>): (r: seq<string>)
    ensures |r| == |qs| && forall i :: 0 <= i < |r| ==> r[i] == QualifierText(env, qs[i])
  {
    seq(|qs|, i requires 0 <= i < |qs| => QualifierText(env, qs[i]))
  }

  function Canonical(env: Env, f: Filter): seq<string> {
    match f
    case All => ["ALL"]
    case Nothing => ["NONE"]
    case Qualifiers(qs) => Sort(Texts(env, qs), TextLess)
  }

  // ---- What one text can stand for ---------------------------------------------------------------

  /** Two patterns with one text: the same regular expression, or substrings equal in lower case. */
  predicate SamePattern(env: Env, p: Pattern, q: Pattern) {
    if p.Substring? && q.Substring? then env.lower(p.text) == env.lower(q.text) else p == q
  }

  predicate OnField(q: Qualifier) {
    q.SelectorPattern? && q.selector.AdditionalField?
  }

  predicate OnStatus(q: Qualifier) {
    q.SelectorPattern? && q.selector.SpanStatus? && q.pattern.Substring?
  }

  lemma PatternDecodes(env: Env, p: Pattern, q: Pattern)
    requires PatternText(env, p) == PatternText(env, q)
    ensures SamePattern(env, p, q)
  {
    assert PatternText(env, p)[0] == if p.Substring? then 's' else 'r';
    assert PatternText(env, q)[0] == if q.Substring? then 's' else 'r';
    if p.Substring? && q.Substring? {
      SplitAt(':', "sub", env.lower(p.text), "sub", env.lower(q.text));
    } else if p.Regex? && q.Regex? {
      var (x, y) := (if p.ignoreCase then "true" else "false", if q.ignoreCase then "true" else "false");
      SplitAt(':', "re", x + ":" + p.source, "re", y + ":" + q.source);
      SplitAt(':', x, p.source, y, q.source);
    }
  }

  lemma SelectorPlain(env: Env, s: Selector)
    requires !s.AdditionalField?
    ensures ':' !in SelectorText(env, s) && SelectorText(env, s) != "af"
  {
  }

  lemma PlainSelectorsDistinct(env: Env, s: Selector, t: Selector)
    requires !s.AdditionalField? && !t.AdditionalField? && SelectorText(env, s) == SelectorText(env, t)
    ensures s == t
  {
  }

  /** The kind of selector is always told; a field name and its pattern only as one run of text. */
  lemma SelectorDecodes(env: Env, s: Selector, p: Pattern, t: Selector, q: Pattern)
    requires SelectorText(env, s) + ":" + PatternText(env, p) == SelectorText(env, t) + ":" + PatternText(env, q)
    ensures s.AdditionalField? <==> t.AdditionalField?
    ensures s.AdditionalField? ==>
              env.lower(s.field) + ":" + PatternText(env, p) == env.lower(t.field) + ":" + PatternText(env, q)
    ensures !s.AdditionalField? ==> s == t && PatternText(env, p) == PatternText(env, q)
  {
    var (x, y) := (PatternText(env, p), PatternText(env, q));
    if s.AdditionalField? { FieldText(env, s.field, x); } else { SelectorPlain(env, s); }
    if t.AdditionalField? { FieldText(env, t.field, y); } else { SelectorPlain(env, t); }
    SplitAt(':', if s.AdditionalField? then "af" else SelectorText(env, s),
            if s.AdditionalField? then env.lower(s.field) + ":" + x else x,
            if t.AdditionalField? then "af" else SelectorText(env, t),
            if t.AdditionalField? then env.lower(t.field) + ":" + y else y);
    if !s.AdditionalField? && !t.AdditionalField? { PlainSelectorsDistinct(env, s, t); }
  }

  lemma FieldText(env: Env, f: string, x: string)
    ensures SelectorText(env, AdditionalField(f)) + ":" + x == "af" + ":" + (env.lower(f) + ":" + x)
  {
  }

  lemma TagsDistinct(q: Qualifier, r: Qualifier)
    ensures ':' !in Tag(q)
    ensures Tag(q) == Tag(r) ==>
              && (q.BarePattern? <==> r.BarePattern?) && (q.SelectorPattern? <==> r.SelectorPattern?)
              && (q.LevelFilter? <==> r.LevelFilter?) && (q.DurationFilter? <==> r.DurationFilter?)
              && (q.BookmarkFilter? <==> r.BookmarkFilter?) && (q.CursorFilter? <==> r.CursorFilter?)
              && (q.SeqFilter? <==> r.SeqFilter?)
  {
  }

  /** All that one text leaves open: case in substrings, and where a field name ends and in which case it is. */
  lemma TextDecodes(env: Env, q: Qualifier, r: Qualifier)
    requires QualifierText(env, q) == QualifierText(env, r)
    ensures OnField(q) <==> OnField(r)
    ensures OnField(q) ==>
              (env.lower(q.selector.field) + ":" + PatternText(env, q.pattern)
               == env.lower(r.selector.field) + ":" + PatternText(env, r.pattern))
    ensures !OnField(q) && (q.SelectorPattern? || q.BarePattern?) ==>
              && q.SelectorPattern? == r.SelectorPattern? && r.BarePattern? == q.BarePattern?
              && (q.SelectorPattern? ==> q.selector == r.selector) && SamePattern(env, q.pattern, r.pattern)
    ensures !q.SelectorPattern? && !q.BarePattern? ==> q == r
  {
    TagsDistinct(q, r);
    TagsDistinct(r, q);
    SplitAt(':', Tag(q), Rest(env, q), Tag(r), Rest(env, r));
    match q {
      case BarePattern(p) => PatternDecodes(env, p, r.pattern);
      case SelectorPattern(s, p) =>
        SelectorDecodes(env, s, p, r.selector, r.pattern);
        if !s.AdditionalField? { PatternDecodes(env, p, r.pattern); }
      case LevelFilter(o, l) => SplitAt(':', LevelOpText(o), LevelText(l), LevelOpText(r.levelOp), LevelText(r.level));
      case DurationFilter(atLeast, bits) => DurationsDistinct(q, r, env);
      case BookmarkFilter(o, name) => SplitAt(':', OrderText(o), name, OrderText(r.order), r.name);
      case CursorFilter(_) =>
      case SeqFilter(o, value) =>
        SplitAt(':', OrderText(o), NatText(value), OrderText(r.order), NatText(r.value));
        NatTextInjective(value, r.value);
      case CursorSeq(after) => NatTextInjective(after, r.after);
    }
  }

  lemma DurationsDistinct(q: Qualifier, r: Qualifier, env: Env)
    requires q.DurationFilter? && r.DurationFilter? && Rest(env, q) == Rest(env, r)
    ensures q == r
  {
    SplitAt(':', if q.atLeast then "gte" else "lte", HexText(q.bits, 16), if r.atLeast then "gte" else "lte", HexText(r.bits, 16));
    Pow16Is64Bits();
    HexTextInjective(q.bits, r.bits, 16, TWO_64);
  }

  // ---- When one text means one thing -------------------------------------------------------------

  /** What is used of lower-casing: it empties no text, and brings in no colon. */
  ghost predicate LowerLaws(env: Env) {
    && env.lower("") == ""
    && (forall s: string :: env.lower(s) == "" ==> s == "")
    && (forall s: string :: ':' in env.lower(s) ==> ':' in s)
  }

  const STATUS_WORDS := {"error", "ok", "unset"}

  /** A regular expression that matches no text at all. A substring always matches itself. */
  ghost predicate MatchesNothing(env: Env, p: Pattern) {
    p.Regex? && forall text: string :: !env.regex(p.source, p.ignoreCase, text)
  }

  predicate SameStatus(s: string, t: string) {
    s == t || (s !in STATUS_WORDS && t !in STATUS_WORDS)
  }

  /**
   What the text does not settle: a field name is looked up as written, and a status substring is compared
   with the status words as written.
   */
  ghost predicate Agree(env: Env, q: Qualifier, r: Qualifier) {
    && (OnField(q) && OnField(r) ==>
          q.selector.field == r.selector.field || (MatchesNothing(env, q.pattern) && MatchesNothing(env, r.pattern)))
    && (OnStatus(q) && OnStatus(r) ==> SameStatus(q.pattern.text, r.pattern.text))
  }

  ghost predicate SameSpans(env: Env, q: Qualifier, r: Qualifier) {
    forall span :: Matches(env, q, span) == Matches(env, r, span)
  }

  lemma SamePatternMatches(env: Env, p: Pattern, q: Pattern)
    requires SamePattern(env, p, q)
    ensures forall text :: MatchesPattern(env, p, text) == MatchesPattern(env, q, text)
  {
  }

  function Carrying(field: string, text: string): Span {
    Span("", "", Unset, "", map[field := text], 0.0, 0)
  }

  function WithStatus(status: Status): Span {
    Span("", "", status, "", map[], 0.0, 0)
  }

  /** A qualifier on a field that matches anything matches a span that carries this field alone. */
  lemma FieldTellsApart(env: Env, q: Qualifier, r: Qualifier)
    requires OnField(q) && OnField(r) && q.selector.field != r.selector.field && !MatchesNothing(env, q.pattern)
    ensures exists text :: Matches(env, q, Carrying(q.selector.field, text)) && !Matches(env, r, Carrying(q.selector.field, text))
  {
    var text: string;
    if q.pattern.Substring? {
      text := q.pattern.text;
      ContainsAt(env.lower(text), "", env.lower(text), "");
    } else {
      text :| env.regex(q.pattern.source, q.pattern.ignoreCase, text);
    }
    assert MatchesPattern(env, q.pattern, text);
    assert Matches(env, q, Carrying(q.selector.field, text)) && !Matches(env, r, Carrying(q.selector.field, text));
  }

  lemma FieldsSameSpans(env: Env, q: Qualifier, r: Qualifier)
    requires OnField(q) && QualifierText(env, q) == QualifierText(env, r)
    ensures SameSpans(env, q, r) <==> Agree(env, q, r)
  {
    TextDecodes(env, q, r);
    var (f, g) := (q.selector.field, r.selector.field);
    hide QualifierText;
    if f == g {
      SplitHere(env.lower(f) + ":", PatternText(env, q.pattern), PatternText(env, r.pattern));
      PatternDecodes(env, q.pattern, r.pattern);
      SamePatternMatches(env, q.pattern, r.pattern);
    } else if !MatchesNothing(env, q.pattern) {
      FieldTellsApart(env, q, r);
    } else if !MatchesNothing(env, r.pattern) {
      FieldTellsApart(env, r, q);
    }
  }

  lemma SplitHere(a: string, b: string, b': string)
    requires a + b == a + b'
    ensures b == b'
  {
    assert (a + b)[|a|..] == b && (a + b')[|a|..] == b';
  }

  /** A status word matches a status that no other spelling of it does. */
  lemma StatusTellsApart(env: Env, s: string, t: string)
    requires LowerLaws(env) && env.lower(s) == env.lower(t) && s != t && s in STATUS_WORDS
    ensures !SameSpans(env, SelectorPattern(SpanStatus, Substring(s)), SelectorPattern(SpanStatus, Substring(t)))
  {
    var (q, r) := (SelectorPattern(SpanStatus, Substring(s)), SelectorPattern(SpanStatus, Substring(t)));
    var span := WithStatus(if s == "ok" then Fine else if s == "unset" then Unset else Failed(""));
    assert env.lower(t) != "";
    assert Matches(env, q, span) && !Matches(env, r, span);
  }

  lemma StatusSameSpans(env: Env, q: Qualifier, r: Qualifier)
    requires LowerLaws(env) && OnStatus(q) && OnStatus(r) && SamePattern(env, q.pattern, r.pattern)
    ensures SameSpans(env, q, r) <==> Agree(env, q, r)
  {
    var (s, t) := (q.pattern.text, r.pattern.text);
    SamePatternMatches(env, q.pattern, r.pattern);
    if s != t && s in STATUS_WORDS {
      StatusTellsApart(env, s, t);
    } else if s != t && t in STATUS_WORDS {
      StatusTellsApart(env, t, s);
    }
  }

  /**
   Qualifiers with one text match the same spans exactly when their field names are the same as written
   (unless neither matches anything) and their status substrings are the same, or neither is a status word.
   */
  lemma SameTextSameSpans(env: Env, q: Qualifier, r: Qualifier)
    requires LowerLaws(env) && QualifierText(env, q) == QualifierText(env, r)
    ensures SameSpans(env, q, r) <==> Agree(env, q, r)
  {
    TextDecodes(env, q, r);
    if OnField(q) {
      FieldsSameSpans(env, q, r);
    } else if OnStatus(q) {
      StatusSameSpans(env, q, r);
    } else if q.SelectorPattern? || q.BarePattern? {
      SamePatternMatches(env, q.pattern, r.pattern);
    }
  }

  // ---- When one form means one filter ------------------------------------------------------------

  /** Wherever the two filters have a text in common, they mean the same by it. */
  ghost predicate MeanTheSame(env: Env, f: Filter, g: Filter) {
    f.Qualifiers? && g.Qualifiers? ==>
      forall q, r :: q in f.qualifiers && r in g.qualifiers && QualifierText(env, q) == QualifierText(env, r) ==> Agree(env, q, r)
  }

  /** A caller's check on the two filters: names and status substrings equal in lower case are equal as written. */
  predicate SpelledAlike(env: Env, f: Filter, g: Filter) {
    f.Qualifiers? && g.Qualifiers? ==>
      forall q, r :: q in f.qualifiers && r in g.qualifiers ==> SpellingAgrees(env, q, r)
  }

  predicate SpellingAgrees(env: Env, q: Qualifier, r: Qualifier) {
    && (OnField(q) && OnField(r) && env.lower(q.selector.field) == env.lower(r.selector.field) ==>
          q.selector.field == r.selector.field)
    && (OnStatus(q) && OnStatus(r) && env.lower(q.pattern.text) == env.lower(r.pattern.text) ==>
          SameStatus(q.pattern.text, r.pattern.text))
  }

  predicate ColonFree(f: Filter) {
    f.Qualifiers? ==> forall q :: q in f.qualifiers && OnField(q) ==> ':' !in q.selector.field
  }

  lemma TextsAreNotWords(env: Env, qs: seq<Qualifier>)
    ensures Sort(Texts(env, qs), TextLess) != ["ALL"] && Sort(Texts(env, qs), TextLess) != ["NONE"]
  {
    SortCorrect(Texts(env, qs), TextLess);
    forall t | t in Texts(env, qs)
      ensures ':' in t
    {
      var i :| 0 <= i < |qs| && t == QualifierText(env, qs[i]);
      assert t[|Tag(qs[i])|] == ':';
    }
    assert "ALL" in ["ALL"] && "NONE" in ["NONE"] && ':' !in "ALL" && ':' !in "NONE";
  }

  /** Every qualifier of the one filter has a qualifier of the other with the same text. */
  lemma Paired(env: Env, qs: seq<Qualifier>, rs: seq<Qualifier>, i: nat) returns (j: nat)
    requires i < |qs| && Sort(Texts(env, qs), TextLess) == Sort(Texts(env, rs), TextLess)
    ensures j < |rs| && QualifierText(env, qs[i]) == QualifierText(env, rs[j])
  {
    SortCorrect(Texts(env, qs), TextLess);
    SortCorrect(Texts(env, rs), TextLess);
    hide Sort, QualifierText;
    assert Texts(env, qs)[i] in Texts(env, rs);
    j :| 0 <= j < |rs| && Texts(env, rs)[j] == Texts(env, qs)[i];
  }

  lemma AcceptedByBoth(env: Env, qs: seq<Qualifier>, rs: seq<Qualifier>, span: Span)
    requires LowerLaws(env) && MeanTheSame(env, Qualifiers(qs), Qualifiers(rs))
    requires Canonical(env, Qualifiers(qs)) == Canonical(env, Qualifiers(rs)) && Accepts(env, Qualifiers(rs), span)
    ensures Accepts(env, Qualifiers(qs), span)
  {
    hide Matches, Agree, LowerLaws, QualifierText;
    forall i | 0 <= i < |qs|
      ensures Matches(env, qs[i], span)
    {
      var j := Paired(env, qs, rs, i);
      assert qs[i] in qs && rs[j] in rs;
      SameTextSameSpans(env, qs[i], rs[j]);
    }
  }

  lemma AgreeSymmetric(env: Env, f: Filter, g: Filter)
    requires MeanTheSame(env, f, g)
    ensures MeanTheSame(env, g, f)
  {
    hide QualifierText, MatchesNothing;
  }

  /** Filters with one canonical form accept the same spans if they mean the same by every text they share. */
  lemma SameFormSameSpans(env: Env, f: Filter, g: Filter, span: Span)
    requires LowerLaws(env) && MeanTheSame(env, f, g) && Canonical(env, f) == Canonical(env, g)
    ensures Accepts(env, f, span) == Accepts(env, g, span)
  {
    if f.Qualifiers? { TextsAreNotWords(env, f.qualifiers); }
    if g.Qualifiers? { TextsAreNotWords(env, g.qualifiers); }
    if f.Qualifiers? && g.Qualifiers? {
      AgreeSymmetric(env, f, g);
      hide MeanTheSame, LowerLaws, Accepts, Canonical;
      if Accepts(env, f, span) { AcceptedByBoth(env, g.qualifiers, f.qualifiers, span); }
      if Accepts(env, g, span) { AcceptedByBoth(env, f.qualifiers, g.qualifiers, span); }
    }
  }

  lemma AlikeAgrees(env: Env, q: Qualifier, r: Qualifier)
    requires LowerLaws(env) && SpellingAgrees(env, q, r) && QualifierText(env, q) == QualifierText(env, r)
    requires OnField(q) ==> ':' !in q.selector.field
    requires OnField(r) ==> ':' !in r.selector.field
    ensures Agree(env, q, r)
  {
    TextDecodes(env, q, r);
    if OnField(q) {
      SplitAt(':', env.lower(q.selector.field), PatternText(env, q.pattern),
              env.lower(r.selector.field), PatternText(env, r.pattern));
    }
  }

  /** So two filters that spell their colon-free names alike, in whatever case, are told apart by the form. */
  lemma AlikeFiltersSameSpans(env: Env, f: Filter, g: Filter, span: Span)
    requires LowerLaws(env) && SpelledAlike(env, f, g) && ColonFree(f) && ColonFree(g)
    requires Canonical(env, f) == Canonical(env, g)
    ensures Accepts(env, f, span) == Accepts(env, g, span)
  {
    if f.Qualifiers? && g.Qualifiers? {
      forall q, r | q in f.qualifiers && r in g.qualifiers && QualifierText(env, q) == QualifierText(env, r)
        ensures Agree(env, q, r)
      {
        AlikeAgrees(env, q, r);
      }
    }
    SameFormSameSpans(env, f, g, span);
  }

  // ---- The order of qualifiers -------------------------------------------------------------------

  ghost predicate Ordered(s: seq<string>) {
    forall i, j :: 0 <= i < j < |s| ==> !TextLess(s[j], s[i])
  }

  lemma {:induction false} InsertOrdered(x: string, s: seq<string>)
    requires Ordered(s)
    ensures Ordered(Insert(x, s, TextLess)) && multiset(Insert(x, s, TextLess)) == multiset(s) + multiset{x}
  {
    hide TextLess;
    InsertKeeps(x, s, TextLess);
    if s != [] && !TextLess(x, s[0]) {
      InsertOrdered(x, s[1..]);
      InsertKeeps(x, s[1..], TextLess);
      var r := Insert(x, s[1..], TextLess);
      forall i | 0 <= i < |r|
        ensures !TextLess(r[i], s[0])
      {
        assert r[i] in multiset(r);
        assert r[i] in s[1..] || r[i] == x;
      }
    } else if s != [] {
      forall i | 0 <= i < |s|
        ensures !TextLess(s[i], x)
      {
        TextTrichotomy(s[i], s[0]);
        TextTrichotomy(x, s[0]);
        if TextLess(s[i], x) { TextTransitive(s[i], x, s[0]); }
      }
    }
  }

  lemma {:induction false} SortOrders(s: seq<string>)
    ensures Ordered(Sort(s, TextLess)) && multiset(Sort(s, TextLess)) == multiset(s)
  {
    if s != [] {
      SortOrders(s[1..]);
      InsertOrdered(s[0], Sort(s[1..], TextLess));
      assert s == [s[0]] + s[1..];
    }
  }

  lemma {:induction false} OrderedUnique(s: seq<string>, t: seq<string>)
    requires Ordered(s) && Ordered(t) && multiset(s) == multiset(t)
    ensures s == t
  {
    assert |multiset(s)| == |s| && |multiset(t)| == |t|;
    if s != [] {
      HeadsAgree(s, t);
      TailsAgree(s, t);
      assert s == [s[0]] + s[1..] && t == [t[0]] + t[1..];
      assert forall i :: 0 <= i < |s| - 1 ==> s[1..][i] == s[i + 1];
      assert forall i :: 0 <= i < |t| - 1 ==> t[1..][i] == t[i + 1];
      hide TextLess;
      OrderedUnique(s[1..], t[1..]);
    }
  }

  lemma HeadsAgree(s: seq<string>, t: seq<string>)
    requires s != [] && t != [] && Ordered(s) && Ordered(t) && multiset(s) == multiset(t)
    ensures s[0] == t[0]
  {
    assert s[0] in multiset(s) && t[0] in multiset(t);
    assert s[0] in t && t[0] in s;
    TextTrichotomy(s[0], t[0]);
    hide TextLess;
  }

  /** The order qualifiers are written in leaves no trace. */
  lemma OrderForgotten(env: Env, qs: seq<Qualifier>, rs: seq<Qualifier>)
    requires multiset(Texts(env, qs)) == multiset(Texts(env, rs))
    ensures Canonical(env, Qualifiers(qs)) == Canonical(env, Qualifiers(rs))
  {
    SortOrders(Texts(env, qs));
    SortOrders(Texts(env, rs));
    OrderedUnique(Sort(Texts(env, qs), TextLess), Sort(Texts(env, rs), TextLess));
  }

  // ---- Where it does not tell them apart ---------------------------------------------------------

  /** For filters of one qualifier the condition is exact. */
  lemma OneQualifier(env: Env, q: Qualifier, r: Qualifier)
    requires LowerLaws(env) && QualifierText(env, q) == QualifierText(env, r)
    ensures Canonical(env, Qualifiers([q])) == Canonical(env, Qualifiers([r]))
    ensures (forall span :: Accepts(env, Qualifiers([q]), span) == Accepts(env, Qualifiers([r]), span)) <==> Agree(env, q, r)
  {
    assert Texts(env, [q]) == Texts(env, [r]);
    SameTextSameSpans(env, q, r);
    hide Agree, Matches, LowerLaws, QualifierText, Canonical;
    forall x: Qualifier, span
      ensures Accepts(env, Qualifiers([x]), span) == Matches(env, x, span)
    {
      assert [x][0] == x;
    }
  }

  function OnlyField(f: string, text: string): Qualifier {
    SelectorPattern(AdditionalField(f), Substring(text))
  }

  function OnlyStatus(text: string): Qualifier {
    SelectorPattern(SpanStatus, Substring(text))
  }

  /**
   Field names that differ only in case have one canonical form, but attributes are looked up by the
   name as written: two such filters accept the same spans exactly when the names are the same.
   */
  lemma FieldCaseMatters(env: Env, f: string, g: string, text: string)
    requires LowerLaws(env) && env.lower(f) == env.lower(g)
    ensures var (a, b) := (Qualifiers([OnlyField(f, text)]), Qualifiers([OnlyField(g, text)]));
      && Canonical(env, a) == Canonical(env, b)
      && ((forall span :: Accepts(env, a, span) == Accepts(env, b, span)) <==> f == g)
  {
    assert QualifierText(env, OnlyField(f, text)) == QualifierText(env, OnlyField(g, text));
    OneQualifier(env, OnlyField(f, text), OnlyField(g, text));
  }

  /**
   A colon in a field name moves the boundary between name and pattern: whatever the name and the
   substring, these two filters have one canonical form, and one of them alone accepts this span.
   */
  lemma ColonInField(env: Env, u: string, s: string)
    requires env.lower(u + ":sub") == env.lower(u) + ":sub" && env.lower("sub:" + s) == "sub:" + env.lower(s)
    ensures var (a, b) := (Qualifiers([OnlyField(u + ":sub", s)]), Qualifiers([OnlyField(u, "sub:" + s)]));
      && Canonical(env, a) == Canonical(env, b)
      && Accepts(env, a, Carrying(u + ":sub", s)) && !Accepts(env, b, Carrying(u + ":sub", s))
  {
    var (q, r) := (OnlyField(u + ":sub", s), OnlyField(u, "sub:" + s));
    ColonMoves(env.lower(u), env.lower(s));
    assert QualifierText(env, q) == QualifierText(env, r);
    assert Texts(env, [q]) == Texts(env, [r]);
    ContainsAt(env.lower(s), "", env.lower(s), "");
    assert |u + ":sub"| > |u|;
    assert Matches(env, [q][0], Carrying(u + ":sub", s)) && !Matches(env, [r][0], Carrying(u + ":sub", s));
  }

  lemma ColonMoves(u: string, s: string)
    ensures "af" + ":" + (u + ":sub") + ":" + ("sub" + ":" + s) == "af" + ":" + u + ":" + ("sub" + ":" + ("sub:" + s))
  {
  }

  /**
   A span's status is compared with the substring as it stands, whose case the form forgets too. The filter
   parser lower-cases every substring, but a pattern read back from its own JSON encoding keeps its case.
   */
  lemma StatusCaseMatters(env: Env, s: string, t: string)
    requires LowerLaws(env) && env.lower(s) == env.lower(t)
    ensures var (a, b) := (Qualifiers([OnlyStatus(s)]), Qualifiers([OnlyStatus(t)]));
      && Canonical(env, a) == Canonical(env, b)
      && ((forall span :: Accepts(env, a, span) == Accepts(env, b, span)) <==> SameStatus(s, t))
  {
    assert QualifierText(env, OnlyStatus(s)) == QualifierText(env, OnlyStatus(t));
    OneQualifier(env, OnlyStatus(s), OnlyStatus(t));
  }

  // ---- What the matcher accepts ------------------------------------------------------------------

  /** Two bounds on the duration accept what lies between them, and one bound what is not beyond it. */
  lemma DurationBounds(env: Env, lo: Bits, hi: Bits, span: Span)
    ensures Accepts(env, Qualifiers([DurationFilter(true, lo), DurationFilter(false, hi)]), span) <==>
              env.float(lo) <= span.duration <= env.float(hi)
    ensures Accepts(env, Qualifiers([DurationFilter(true, lo)]), span) <==> !(span.duration < env.float(lo))
  {
    var (both, one) := ([DurationFilter(true, lo), DurationFilter(false, hi)], [DurationFilter(true, lo)]);
    assert Matches(env, both[0], span) && Matches(env, both[1], span) <==> env.float(lo) <= span.duration <= env.float(hi);
    assert Matches(env, one[0], span) <==> span.duration >= env.float(lo);
  }

  /** Bounds on the sequence number are strict, and a cursor accepts what comes after it. */
  lemma SequenceBounds(env: Env, lo: nat, hi: nat, span: Span)
    ensures Accepts(env, Qualifiers([SeqFilter(Gt, lo), SeqFilter(Lt, hi)]), span) <==> lo < span.seqNo < hi
    ensures Accepts(env, Qualifiers([CursorSeq(lo)]), span) <==> lo < span.seqNo
  {
    var (both, one) := ([SeqFilter(Gt, lo), SeqFilter(Lt, hi)], [CursorSeq(lo)]);
    assert Matches(env, both[0], span) && Matches(env, both[1], span) <==> lo < span.seqNo < hi;
    assert Matches(env, one[0], span) <==> lo < span.seqNo;
  }

  /** A text selector looks at the span's own name, service, kind or attribute, and at nothing else of it. */
  lemma TextSelectors(env: Env, p: Pattern, f: string, span: Span)
    ensures Matches(env, BarePattern(p), span) <==> MatchesPattern(env, p, span.name)
    ensures Matches(env, SelectorPattern(SpanName, p), span) <==> Matches(env, BarePattern(p), span)
    ensures Matches(env, SelectorPattern(ServiceName, p), span) <==> Matches(env, BarePattern(p), span.(name := span.service))
    ensures Matches(env, SelectorPattern(SpanKind, p), span) <==> Matches(env, BarePattern(p), span.(name := span.kind))
    ensures Matches(env, SelectorPattern(AdditionalField(f), p), span) <==>
              f in span.attributes && Matches(env, BarePattern(p), span.(name := span.attributes[f]))
  {
  }

  /** A substring is found wherever it occurs, in any case; a status word names its status; log selectors match no span. */
  lemma PatternsAndWords(env: Env, text: string, before: string, after: string, message: string, p: Pattern)
    ensures env.lower(before + text + after) == env.lower(before) + env.lower(text) + env.lower(after) ==>
              MatchesPattern(env, Substring(text), before + text + after)
    ensures MatchesStatus(env, Substring("ok"), Fine) && !MatchesStatus(env, Substring("ok"), Unset)
    ensures MatchesStatus(env, Substring("unset"), Unset) && !MatchesStatus(env, Substring("unset"), Fine)
    ensures MatchesStatus(env, Substring("error"), Failed(message)) && !MatchesStatus(env, Substring("error"), Fine)
    ensures p.Substring? && p.text !in STATUS_WORDS ==>
              forall status :: MatchesStatus(env, p, status) <==> status.Failed? && MatchesPattern(env, p, status.message)
    ensures forall s, span :: s in {Message, FullMessage, MessageOrFull, Host, Facility, File, Line} ==>
              !Matches(env, SelectorPattern(s, p), span)
  {
    if env.lower(before + text + after) == env.lower(before) + env.lower(text) + env.lower(after) {
      ContainsAt(env.lower(before + text + after), env.lower(before), env.lower(text), env.lower(after));
    }
  }

  /** How a canonical form spells its qualifiers; saved runs are compared by these texts. */
  lemma FormsSpelled(env: Env, n: nat, name: string, bits: Bits)
    ensures Canonical(env, All) == ["ALL"] && Canonical(env, Nothing) == ["NONE"]
    ensures QualifierText(env, SeqFilter(Gt, n)) == "seq" + ":" + ("Gt" + ":" + NatText(n))
    ensures QualifierText(env, SeqFilter(Lt, n)) == "seq" + ":" + ("Lt" + ":" + NatText(n))
    ensures QualifierText(env, BookmarkFilter(Gte, name)) == "bm" + ":" + ("Gte" + ":" + name)
    ensures QualifierText(env, BookmarkFilter(Lte, name)) == "bm" + ":" + ("Lte" + ":" + name)
    ensures QualifierText(env, DurationFilter(true, bits)) == "dur" + ":" + ("gte" + ":" + HexText(bits, 16))
    ensures QualifierText(env, DurationFilter(false, bits)) == "dur" + ":" + ("lte" + ":" + HexText(bits, 16))
    ensures QualifierText(env, CursorFilter(name)) == "cur" + ":" + name
    ensures QualifierText(env, CursorSeq(n)) == "curseq" + ":" + NatText(n)
    ensures QualifierText(env, LevelFilter(LevelGte, Warn)) == "lvl" + ":" + ("Gte" + ":" + "Warn")
  {
    hide NatText, HexText;
  }
}
