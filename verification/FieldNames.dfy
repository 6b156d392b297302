/** The fixed words of the front matter: its keys, in their order, and the fields of its mappings. */
module FieldNames {

  datatype Name =
    | Case | LogmonFormat | CapturedAt | Domain | Incarnation | Reason | Anchor | Headline
    | Verdict | SeqRange | Logdata | Spandata | NarrowedBy | Provenance | Asserted
    | Kind | Value | Seq | At | From | To | RequestedBeforeMissing | RequestedAfterMissing | Clamped
    | File | Records | BySource | Filter | PreTrigger | PostTrigger | Filters | Core | Missing

  function NameText(n: Name): string {
    match n
    case Case => "case"
    case LogmonFormat => "logmon_format"
    case CapturedAt => "captured_at"
    case Domain => "domain"
    case Incarnation => "incarnation"
    case Reason => "reason"
    case Anchor => "anchor"
    case Headline => "headline"
    case Verdict => "verdict"
    case SeqRange => "seq_range"
    case Logdata => "logdata"
    case Spandata => "spandata"
    case NarrowedBy => "narrowed_by"
    case Provenance => "provenance"
    case Asserted => "asserted"
    case Kind => "kind"
    case Value => "value"
    case Seq => "seq"
    case At => "at"
    case From => "from"
    case To => "to"
    case RequestedBeforeMissing => "requested_before_missing"
    case RequestedAfterMissing => "requested_after_missing"
    case Clamped => "clamped"
    case File => "file"
    case Records => "records"
    case BySource => "by_source"
    case Filter => "filter"
    case PreTrigger => "pre_trigger"
    case PostTrigger => "post_trigger"
    case Filters => "filters"
    case Core => "core"
    case Missing => "missing"
  }

  /** The keys, in the order they are written. */
  const ORDER: seq<Name> := [
    Case, LogmonFormat, CapturedAt, Domain, Incarnation, Reason, Anchor, Headline,
    Verdict, SeqRange, Logdata, Spandata, NarrowedBy, Provenance, Asserted]

  function Position(n: Name): nat {
    match n
    case Case => 0
    case LogmonFormat => 1
    case CapturedAt => 2
    case Domain => 3
    case Incarnation => 4
    case Reason => 5
    case Anchor => 6
    case Headline => 7
    case Verdict => 8
    case SeqRange => 9
    case Logdata => 10
    case Spandata => 11
    case NarrowedBy => 12
    case Provenance => 13
    case Asserted => 14
    case _ => |ORDER|
  }

  predicate IsKey(n: Name) {
    Position(n) < |ORDER|
  }

  lemma KeysAreOrdered(n: Name)
    ensures IsKey(n) <==> n in ORDER
  {
    if IsKey(n) {
      assert ORDER[Position(n)] == n;
    }
  }

  predicate IsNameChar(c: char) {
    'a' <= c <= 'z' || c == '_'
  }

  predicate Plain(s: string) {
    |s| >= 2 && forall i :: 0 <= i < |s| ==> IsNameChar(s[i])
  }

  lemma KeyPlain(n: Name)
    requires IsKey(n)
    ensures Plain(NameText(n))
  {
  }

  lemma FieldPlain(n: Name)
    requires !IsKey(n)
    ensures Plain(NameText(n))
  {
  }

  lemma NamePlain(n: Name)
    ensures Plain(NameText(n))
  {
    hide NameText, Plain;
    if IsKey(n) { KeyPlain(n); } else { FieldPlain(n); }
  }

  /** Enough of a word to tell these words apart. */
  function Code(s: string): int
    requires |s| >= 2
  {
    ((|s| * 128 + s[0] as int) * 128 + s[1] as int) * 128 + s[|s| - 1] as int
  }

  function Named(code: int): Name {
    if code == 10023141 then Case
    else if code == 29046772 then LogmonFormat
    else if code == 24703220 then CapturedAt
    else if code == 14235630 then Domain
    else if code == 24803182 then Incarnation
    else if code == 14463726 then Reason
    else if code == 14186354 then Anchor
    else if code == 18494181 then Headline
    else if code == 16626420 then Verdict
    else if code == 20771557 then SeqRange
    else if code == 16463841 then Logdata
    else if code == 18675809 then Spandata
    else if code == 24883449 then NarrowedBy
    else if code == 22821221 then Provenance
    else if code == 18381284 then Asserted
    else if code == 10155236 then Kind
    else if code == 12431589 then Value
    else if code == 8188657 then Seq
    else if code == 5798516 then At
    else if code == 10074477 then From
    else if code == 6109167 then To
    else if code == 52212455 then RequestedBeforeMissing
    else if code == 50115303 then RequestedAfterMissing
    else if code == 16316004 then Clamped
    else if code == 10073317 then File
    else if code == 16560883 then Records
    else if code == 20495589 then BySource
    else if code == 14267634 then Filter
    else if code == 24918386 then PreTrigger
    else if code == 27015154 then PostTrigger
    else if code == 16364787 then Filters
    else if code == 10024933 then Core
    else Missing
  }

  lemma KeyCode(n: Name)
    requires IsKey(n)
    ensures |NameText(n)| >= 2 && Named(Code(NameText(n))) == n
  {
  }

  lemma FieldCode(n: Name)
    requires !IsKey(n)
    ensures |NameText(n)| >= 2 && Named(Code(NameText(n))) == n
  {
  }

  lemma NamesDistinct(m: Name, n: Name)
    requires NameText(m) == NameText(n)
    ensures m == n
  {
    hide NameText, Named, Code;
    if IsKey(m) { KeyCode(m); } else { FieldCode(m); }
    if IsKey(n) { KeyCode(n); } else { FieldCode(n); }
  }
}
