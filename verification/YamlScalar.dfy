/** The double-quoted scalar of the front matter: its escaper, and the strict reader that undoes it. */
module YamlScalar {
  import opened Text

  const NEXT_LINE: char := '\U{85}'
  const LINE_SEPARATOR: char := '\U{2028}'
  const PARAGRAPH_SEPARATOR: char := '\U{2029}'

  /** C0 controls and DEL. */
  predicate IsControl(c: char) {
    c < ' ' || c == '\U{7f}'
  }

  /** What a YAML reader or a line splitter may take for the end of a line, or drop. */
  predicate MayBreak(c: char) {
    IsControl(c) || c == NEXT_LINE || c == LINE_SEPARATOR || c == PARAGRAPH_SEPARATOR
  }

  function HexDigit(d: nat): char
    requires d < 16
  {
    if d < 10 then ('0' as int + d) as char else ('a' as int + d - 10) as char
  }

  function EscapeChar(c: char): string {
    if c == '\\' then "\\\\"
    else if c == '"' then "\\\""
    else if c == '\n' then "\\n"
    else if c == '\r' then "\\r"
    else if c == '\t' then "\\t"
    else if IsControl(c) then ['\\', 'x', HexDigit(c as int / 16), HexDigit(c as int % 16)]
    else if c == NEXT_LINE then "\\N"
    else if c == LINE_SEPARATOR then "\\L"
    else if c == PARAGRAPH_SEPARATOR then "\\P"
    else [c]
  }

  function Escape(s: string): string {
    if s == "" then "" else EscapeChar(s[0]) + Escape(s[1..])
  }

  function Quoted(s: string): string {
    "\"" + Escape(s) + "\""
  }

  /** The escaper as it runs: one pass, pushing onto a growing string. */
  method YamlStr(s: string) returns (out: string)
    ensures out == Quoted(s)
  {
    hide EscapeChar;
    out := "\"";
    for i := 0 to |s|
      invariant out + Escape(s[i..]) == "\"" + Escape(s)
    {
      assert s[i..][1..] == s[i + 1..];
      assert out + Escape(s[i..]) == (out + EscapeChar(s[i])) + Escape(s[i + 1..]);
      out := out + EscapeChar(s[i]);
    }
    assert s[|s|..] == "" && out + "" == out;
    out := out + "\"";
  }

  /** Nothing that survives escaping can end a line early or be dropped on the way. */
  lemma {:induction false} EscapedStaysOnOneLine(s: string)
    ensures forall i :: 0 <= i < |Escape(s)| ==> !MayBreak(Escape(s)[i])
  {
    if s != "" {
      EscapedStaysOnOneLine(s[1..]);
      var e := EscapeChar(s[0]);
      assert forall i :: 0 <= i < |e| ==> !MayBreak(e[i]);
    }
  }

  // ---- Reading back ------------------------------------------------------------------------------

  datatype ScanError = BadEscape | Unterminated | BadFlow

  /** What was read, and the input after it. */
  datatype Scan<+T> = Got(value: T, rest: string) | Bad(error: ScanError)

  /** `u32::from_str_radix` on two characters, base 16: a leading `+` is accepted. */
  function HexByte(hi: char, lo: char): (r: Option<nat>)
    ensures r.Some? ==> r.value < 256
  {
    if HexValue(lo).None? then None
    else if hi == '+' then HexValue(lo)
    else if HexValue(hi).None? then None
    else Some(16 * HexValue(hi).value + HexValue(lo).value)
  }

  /** What an escape of one letter stands for. */
  function ShortEscape(c: char): Option<char> {
    if c == '\\' then Some('\\')
    else if c == '"' then Some('"')
    else if c == 'n' then Some('\n')
    else if c == 'r' then Some('\r')
    else if c == 't' then Some('\t')
    else if c == 'N' then Some(NEXT_LINE)
    else if c == 'L' then Some(LINE_SEPARATOR)
    else if c == 'P' then Some(PARAGRAPH_SEPARATOR)
    else None
  }

  /** One character off the front of escaped text; `Bad` is an escape the escaper never writes. */
  function UnescapeHead(raw: string): (r: Scan<char>)
    requires raw != ""
    ensures r.Got? ==> |r.rest| < |raw|
  {
    if raw[0] != '\\' then Got(raw[0], raw[1..])
    else if |raw| == 1 then Bad(BadEscape)
    else if ShortEscape(raw[1]).Some? then Got(ShortEscape(raw[1]).value, raw[2..])
    else if raw[1] == 'x' && |raw| >= 4 && HexByte(raw[2], raw[3]).Some?
    then Got(HexByte(raw[2], raw[3]).value as char, raw[4..])
    else Bad(BadEscape)
  }

  function Unescaped(raw: string): Option<string> {
    if raw == "" then Some("")
    else
      match UnescapeHead(raw)
      case Bad(_) => None
      case Got(c, rest) => match Unescaped(rest) case None => None case Some(t) => Some([c] + t)
  }

  /** The reader as it runs. */
  method Unescape(raw: string) returns (text: Option<string>)
    ensures text == Unescaped(raw)
  {
    var out, left := "", raw;
    assert forall t: string :: "" + t == t;
    while left != ""
      invariant Unescaped(raw) == match Unescaped(left) case None => None case Some(t) => Some(out + t)
      decreases |left|
    {
      var head := UnescapeHead(left);
      if head.Bad? {
        return None;
      }
      assert forall t :: out + ([head.value] + t) == (out + [head.value]) + t;
      out, left := out + [head.value], head.rest;
    }
    assert out + "" == out;
    text := Some(out);
  }

  lemma UnescapeEscapeChar(c: char, rest: string)
    ensures UnescapeHead(EscapeChar(c) + rest) == Got(c, rest)
  {
    var e := EscapeChar(c) + rest;
    assert e[|EscapeChar(c)|..] == rest;
    if IsControl(c) && c !in "\n\r\t" {
      assert HexByte(e[2], e[3]) == Some(c as int);
    }
  }

  /** Reading undoes escaping, for every string. */
  lemma {:induction false} UnescapeEscape(s: string)
    ensures Unescaped(Escape(s)) == Some(s)
  {
    if s != "" {
      UnescapeEscapeChar(s[0], Escape(s[1..]));
      UnescapeEscape(s[1..]);
      assert [s[0]] + s[1..] == s;
    }
  }

  /** Up to the closing quote: the text before it, still escaped, and what follows it. */
  function RawUpTo(s: string): (r: Option<(string, string)>)
    ensures r.Some? ==> |r.value.1| < |s|
  {
    if s == "" then None
    else if s[0] == '"' then Some(("", s[1..]))
    else
      var taken := if s[0] == '\\' then 2 else 1;
      if taken > |s| then None
      else match RawUpTo(s[taken..]) case None => None case Some((raw, rest)) => Some((s[..taken] + raw, rest))
  }

  /** A quoted scalar, from its opening quote. */
  function QuotedFrom(s: string): (r: Scan<string>)
    requires s != "" && s[0] == '"'
    ensures r.Got? ==> |r.rest| < |s|
  {
    match RawUpTo(s[1..])
    case None => Bad(Unterminated)
    case Some((raw, rest)) => match Unescaped(raw) case None => Bad(BadEscape) case Some(text) => Got(text, rest)
  }

  lemma RawPlain(c: char, tail: string, raw: string, rest: string)
    requires c != '"' && c != '\\' && RawUpTo(tail) == Some((raw, rest))
    ensures RawUpTo([c] + tail) == Some(([c] + raw, rest))
  {
    assert ([c] + tail)[1..] == tail && ([c] + tail)[..1] == [c];
  }

  lemma RawPair(c: char, tail: string, raw: string, rest: string)
    requires RawUpTo(tail) == Some((raw, rest))
    ensures RawUpTo(['\\', c] + tail) == Some((['\\', c] + raw, rest))
  {
    assert (['\\', c] + tail)[2..] == tail && (['\\', c] + tail)[..2] == ['\\', c];
  }

  predicate HexDigits(a: char, b: char) {
    HexValue(a).Some? && HexValue(b).Some?
  }

  lemma RawHex(a: char, b: char, tail: string, raw: string, rest: string)
    requires HexDigits(a, b) && RawUpTo(tail) == Some((raw, rest))
    ensures RawUpTo(['\\', 'x', a, b] + tail) == Some((['\\', 'x', a, b] + raw, rest))
  {
    hide RawUpTo;
    RawPlain(b, tail, raw, rest);
    RawPlain(a, [b] + tail, [b] + raw, rest);
    RawPair('x', [a] + ([b] + tail), [a] + ([b] + raw), rest);
    assert ['\\', 'x'] + ([a] + ([b] + tail)) == ['\\', 'x', a, b] + tail;
    assert ['\\', 'x'] + ([a] + ([b] + raw)) == ['\\', 'x', a, b] + raw;
  }

  lemma RawOfEscapedChar(c: char, tail: string, raw: string, rest: string)
    requires RawUpTo(tail) == Some((raw, rest))
    ensures RawUpTo(EscapeChar(c) + tail) == Some((EscapeChar(c) + raw, rest))
  {
    var e := EscapeChar(c);
    hide RawUpTo;
    if |e| == 4 {
      RawHex(e[2], e[3], tail, raw, rest);
    } else if |e| == 2 {
      RawPair(e[1], tail, raw, rest);
      assert e == ['\\', e[1]];
    } else {
      RawPlain(c, tail, raw, rest);
    }
  }

  lemma {:induction false} RawOfEscaped(s: string, rest: string)
    ensures RawUpTo(Escape(s) + "\"" + rest) == Some((Escape(s), rest))
  {
    if s == "" {
      assert ("\"" + rest)[1..] == rest;
    } else {
      var tail := Escape(s[1..]) + "\"" + rest;
      RawOfEscaped(s[1..], rest);
      RawOfEscapedChar(s[0], tail, Escape(s[1..]), rest);
      assert Escape(s) + "\"" + rest == EscapeChar(s[0]) + tail;
    }
  }

  /** A quoted scalar reads back as the string it was made from, whatever follows it. */
  lemma QuotedRoundTrip(s: string, rest: string)
    ensures QuotedFrom(Quoted(s) + rest) == Got(s, rest)
  {
    var whole := Quoted(s) + rest;
    assert whole[1..] == Escape(s) + "\"" + rest;
    RawOfEscaped(s, rest);
    UnescapeEscape(s);
  }
}
