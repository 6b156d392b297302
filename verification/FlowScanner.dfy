/**
 The scanner for one front-matter value: a scalar, or flow mappings and sequences nested to any depth.

 The functions read off the front of a string and say what is left; the cursor methods do the same
 by moving an index, and are proved to agree with them.
 */
module FlowScanner {
  import opened Text
  import opened YamlScalar

  datatype Value =
    | Str(text: string)
    | Bare(word: string)
    | Map(entries: map<string, Value>)
    | Seq(items: seq<Value>)

  /** Unicode's `White_Space`. */
  predicate IsSpace(c: char) {
    || '\t' <= c <= '\r' || c == ' ' || c == NEXT_LINE || c == '\U{A0}' || c == '\U{1680}'
    || '\U{2000}' <= c <= '\U{200A}' || c == LINE_SEPARATOR || c == PARAGRAPH_SEPARATOR
    || c == '\U{202F}' || c == '\U{205F}' || c == '\U{3000}'
  }

  function TrimStart(s: string): string {
    if s != "" && IsSpace(s[0]) then TrimStart(s[1..]) else s
  }

  function TrimEnd(s: string): string {
    if s != "" && IsSpace(s[|s| - 1]) then TrimEnd(s[..|s| - 1]) else s
  }

  function Trim(s: string): string {
    TrimEnd(TrimStart(s))
  }

  predicate Trimmed(s: string) {
    s == "" || (!IsSpace(s[0]) && !IsSpace(s[|s| - 1]))
  }

  lemma TrimTrimmed(s: string)
    requires Trimmed(s)
    ensures Trim(s) == s
  {
  }

  function SkipBlanks(s: string): (r: string)
    ensures |r| <= |s|
  {
    if s != "" && (s[0] == ' ' || s[0] == '\t') then SkipBlanks(s[1..]) else s
  }

  /** What ends an unquoted word: a key also at its colon, a value also at a closing bracket. */
  predicate Stops(key: bool, c: char) {
    c == ',' || c == '}' || c == (if key then ':' else ']')
  }

  /** How much of `s` an unquoted word takes. */
  function Run(key: bool, s: string): (n: nat)
    ensures n <= |s|
  {
    if s == "" || Stops(key, s[0]) then 0 else 1 + Run(key, s[1..])
  }

  function KeyFrom(s: string): (r: Scan<string>)
    requires s != ""
    ensures r.Got? ==> |r.rest| <= |s|
  {
    if s[0] == '"' then QuotedFrom(s)
    else Got(Trim(s[..Run(true, s)]), s[Run(true, s)..])
  }

  function ValueFrom(s: string): (r: Scan<Value>)
    ensures r.Got? ==> |r.rest| <= |s|
    decreases |s|, 0
  {
    var t := SkipBlanks(s);
    if t != "" && t[0] == '"' then
      match QuotedFrom(t) case Bad(e) => Bad(e) case Got(text, rest) => Got(Str(text), rest)
    else if t != "" && t[0] == '{' then MapFrom(t[1..], map[])
    else if t != "" && t[0] == '[' then SeqFrom(t[1..], [])
    else Got(Bare(Trim(t[..Run(false, t)])), t[Run(false, t)..])
  }

  /** A mapping, past its opening brace and the entries `m`. */
  function MapFrom(s: string, m: map<string, Value>): (r: Scan<Value>)
    ensures r.Got? ==> |r.rest| < |s|
    decreases |s|, 1
  {
    var t := SkipBlanks(s);
    if t == "" then Bad(BadFlow)
    else if t[0] == '}' then Got(Map(m), t[1..])
    else if t[0] == ',' then MapFrom(t[1..], m)
    else
      match KeyFrom(t)
      case Bad(e) => Bad(e)
      case Got(key, rest) =>
        var u := SkipBlanks(rest);
        if u == "" || u[0] != ':' then Bad(BadFlow)
        else match ValueFrom(u[1..]) case Bad(e) => Bad(e) case Got(v, after) => MapFrom(after, m[key := v])
  }

  /** A sequence, past its opening bracket and `items`. An item that takes no input is an error. */
  function SeqFrom(s: string, items: seq<Value>): (r: Scan<Value>)
    ensures r.Got? ==> |r.rest| < |s|
    decreases |s|, 1
  {
    var t := SkipBlanks(s);
    if t == "" then Bad(BadFlow)
    else if t[0] == ']' then Got(Seq(items), t[1..])
    else if t[0] == ',' then SeqFrom(t[1..], items)
    else
      match ValueFrom(t)
      case Bad(e) => Bad(e)
      case Got(v, after) => if |after| == |t| then Bad(BadFlow) else SeqFrom(after, items + [v])
  }

  /**
   A value takes no input exactly where an unquoted word would stop at once. Without its progress
   guard, a sequence would read empty words there for ever.
   */
  lemma NoProgress(s: string)
    requires SkipBlanks(s) == s
    ensures ValueFrom(s).Got? && |ValueFrom(s).rest| == |s| <==> s == "" || Stops(false, s[0])
  {
  }

  // ---- The cursor --------------------------------------------------------------------------------

  /** The cursor's answer is the function's, and it stops where the function's leftover begins. */
  ghost predicate Agrees<T>(spec: Scan<T>, answer: Result<T, ScanError>, rest: string) {
    match spec
    case Bad(e) => answer == Failure(e)
    case Got(v, after) => answer == Success(v) && rest == after
  }

  ghost function After(raw: string, r: Option<(string, string)>): Option<(string, string)> {
    match r case None => None case Some((more, rest)) => Some((raw + more, rest))
  }

  lemma AfterNothing(r: Option<(string, string)>)
    ensures After("", r) == r
  {
    assert r.Some? ==> "" + r.value.0 == r.value.0;
  }

  lemma RawNeverCloses(raw: string, s: string)
    requires s == "" || s == "\\"
    ensures After(raw, RawUpTo(s)) == None
  {
  }

  lemma RawCloses(raw: string, s: string)
    requires s != "" && s[0] == '"'
    ensures After(raw, RawUpTo(s)) == Some((raw, s[1..]))
  {
    assert raw + "" == raw;
  }

  lemma RawStep(raw: string, s: string, taken: nat)
    requires s != "" && s[0] != '"' && taken == (if s[0] == '\\' then 2 else 1) && taken <= |s|
    ensures After(raw, RawUpTo(s)) == After(raw + s[..taken], RawUpTo(s[taken..]))
  {
    assert RawUpTo(s) == After(s[..taken], RawUpTo(s[taken..]));
    hide RawUpTo;
    if RawUpTo(s[taken..]).Some? {
      var more := RawUpTo(s[taken..]).value.0;
      assert raw + (s[..taken] + more) == raw + s[..taken] + more;
    }
  }

  class Cur {
    const chars: string
    var i: nat

    constructor (s: string)
      ensures Valid() && Rest() == s && i == 0 && chars == s
    {
      chars, i := s, 0;
    }

    ghost predicate Valid()
      reads this
    {
      i <= |chars|
    }

    function Rest(): string
      reads this
      requires Valid()
    {
      chars[i..]
    }

    /** Whether the next character is `c`. */
    predicate At(c: char)
      reads this
      requires Valid()
      ensures At(c) <==> Rest() != "" && Rest()[0] == c
    {
      i < |chars| && chars[i] == c
    }

    method Advance()
      requires Valid() && Rest() != ""
      modifies this
      ensures Valid() && Rest() == old(Rest())[1..] && i == old(i) + 1
    {
      i := i + 1;
    }

    method SkipWs()
      requires Valid()
      modifies this
      ensures Valid() && Rest() == SkipBlanks(old(Rest())) && i >= old(i)
    {
      while At(' ') || At('\t')
        invariant Valid() && SkipBlanks(Rest()) == SkipBlanks(old(Rest())) && i >= old(i)
        decreases |chars| - i
      {
        Advance();
      }
    }

    /** Past the opening quote: the text up to the closing one, still escaped. */
    method RawText() returns (raw: Option<string>)
      requires Valid()
      modifies this
      ensures Valid() && i >= old(i)
      ensures RawUpTo(old(Rest())) == match raw case None => None case Some(t) => Some((t, Rest()))
    {
      hide RawUpTo, After;
      ghost var start := Rest();
      var text := "";
      AfterNothing(RawUpTo(start));
      while !At('"')
        invariant Valid() && i >= old(i)
        invariant RawUpTo(start) == After(text, RawUpTo(Rest()))
        decreases |chars| - i
      {
        var taken := if At('\\') then 2 else 1;
        if i + taken > |chars| {
          RawNeverCloses(text, Rest());
          i := |chars|;
          return None;
        }
        RawStep(text, Rest(), taken);
        assert Rest()[..taken] == chars[i..i + taken] && Rest()[taken..] == chars[i + taken..];
        text, i := text + chars[i..i + taken], i + taken;
      }
      RawCloses(text, Rest());
      Advance();
      raw := Some(text);
    }

    method Quoted() returns (r: Result<string, ScanError>)
      requires Valid() && At('"')
      modifies this
      ensures Valid() && Agrees(QuotedFrom(old(Rest())), r, Rest()) && i > old(i)
    {
      hide RawUpTo, Unescaped;
      Advance();
      var raw := RawText();
      if raw.None? {
        return Failure(Unterminated);
      }
      var text := YamlScalar.Unescape(raw.value);
      r := match text case None => Failure(BadEscape) case Some(t) => Success(t);
    }

    /** An unquoted word, up to what stops it. */
    method Word(key: bool) returns (word: string)
      requires Valid()
      modifies this
      ensures Valid() && i >= old(i)
      ensures word == Trim(old(Rest())[..Run(key, old(Rest()))]) && Rest() == old(Rest())[Run(key, old(Rest()))..]
    {
      var start := i;
      while i < |chars| && !Stops(key, chars[i])
        invariant start <= i <= |chars|
        invariant Run(key, old(Rest())) == i - start + Run(key, Rest())
        decreases |chars| - i
      {
        Advance();
      }
      assert chars[start..][..i - start] == chars[start..i] && chars[start..][i - start..] == chars[i..];
      word := Trim(chars[start..i]);
    }

    method ParseValue() returns (r: Result<Value, ScanError>)
      requires Valid()
      modifies this
      ensures Valid() && Agrees(ValueFrom(old(Rest())), r, Rest()) && i >= old(i)
      decreases |chars| - i, 1
    {
      SkipWs();
      if At('"') {
        var text := Quoted();
        r := match text case Success(t) => Success(Str(t)) case Failure(e) => Failure(e);
      } else if At('{') {
        r := FlowMap();
      } else if At('[') {
        r := FlowSeq();
      } else {
        var word := Word(false);
        r := Success(Bare(word));
      }
    }

    method FlowMap() returns (r: Result<Value, ScanError>)
      requires Valid() && At('{')
      modifies this
      ensures Valid() && Agrees(MapFrom(old(Rest())[1..], map[]), r, Rest()) && i >= old(i)
      decreases |chars| - i, 0
    {
      Advance();
      ghost var start := Rest();
      var m: map<string, Value> := map[];
      while true
        invariant Valid() && i > old(i)
        invariant MapFrom(start, map[]) == MapFrom(Rest(), m)
        decreases |chars| - i
      {
        SkipWs();
        if i == |chars| {
          return Failure(BadFlow);
        } else if At('}') {
          Advance();
          return Success(Map(m));
        } else if At(',') {
          Advance();
        } else {
          var key;
          if At('"') {
            var text := Quoted();
            if text.Failure? {
              return Failure(text.error);
            }
            key := text.value;
          } else {
            key := Word(true);
          }
          SkipWs();
          if !At(':') {
            return Failure(BadFlow);
          }
          Advance();
          var v := ParseValue();
          if v.Failure? {
            return v;
          }
          m := m[key := v.value];
        }
      }
    }

    method FlowSeq() returns (r: Result<Value, ScanError>)
      requires Valid() && At('[')
      modifies this
      ensures Valid() && Agrees(SeqFrom(old(Rest())[1..], []), r, Rest()) && i >= old(i)
      decreases |chars| - i, 0
    {
      Advance();
      ghost var start := Rest();
      var items: seq<Value> := [];
      while true
        invariant Valid() && i > old(i)
        invariant SeqFrom(start, []) == SeqFrom(Rest(), items)
        decreases |chars| - i
      {
        SkipWs();
        if i == |chars| {
          return Failure(BadFlow);
        } else if At(']') {
          Advance();
          return Success(Seq(items));
        } else if At(',') {
          Advance();
        } else {
          var before := i;
          var v := ParseValue();
          if v.Failure? {
            return v;
          }
          if i == before {
            return Failure(BadFlow);
          }
          items := items + [v.value];
        }
      }
    }
  }
}
