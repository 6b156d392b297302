/** Decimal text and lexicographic order: what the file names, labels and front matter are built from. */
module Text {

  datatype Option<+T> = None | Some(value: T)

  datatype Result<+T, +E> = Success(value: T) | Failure(error: E) {
    predicate IsFailure() { Failure? }
    function PropagateFailure<U>(): Result<U, E>
      requires Failure?
    {
      Failure(error)
    }
    function Extract(): T
      requires Success?
    {
      value
    }
  }

  const TWO_64: nat := 0x1_0000_0000_0000_0000

  function Digit(d: nat): char
    requires d < 10
  {
    ('0' as int + d) as char
  }

  predicate IsDigit(c: char) {
    '0' <= c <= '9'
  }

  /** How an unsigned integer is displayed. */
  function NatText(n: nat): string {
    if n < 10 then [Digit(n)] else NatText(n / 10) + [Digit(n % 10)]
  }

  predicate AllDigits(s: string) {
    forall i :: 0 <= i < |s| ==> IsDigit(s[i])
  }

  function DigitsValue(s: string): nat
    requires AllDigits(s)
  {
    if s == [] then 0 else 10 * DigitsValue(s[..|s| - 1]) + (s[|s| - 1] as int - '0' as int)
  }

  /** `str::parse::<u64>`: an optional `+`, at least one digit, and a value that fits. */
  function ParseU64(s: string): Option<nat> {
    var digits := if s != [] && s[0] == '+' then s[1..] else s;
    if digits == [] || !AllDigits(digits) || DigitsValue(digits) >= TWO_64 then None
    else Some(DigitsValue(digits))
  }

  lemma {:induction false} NatTextDigits(n: nat)
    ensures NatText(n) != [] && AllDigits(NatText(n)) && DigitsValue(NatText(n)) == n
  {
    if n >= 10 {
      NatTextDigits(n / 10);
      assert NatText(n)[..|NatText(n)| - 1] == NatText(n / 10);
    } else {
      assert NatText(n)[..0] == [];
    }
  }

  lemma NatTextInjective(m: nat, n: nat)
    requires NatText(m) == NatText(n)
    ensures m == n
  {
    NatTextDigits(m);
    NatTextDigits(n);
  }

  /** Printing a `u64` and parsing the text gives it back. */
  lemma U64RoundTrip(n: nat)
    requires n < TWO_64
    ensures ParseU64(NatText(n)) == Some(n)
  {
    NatTextDigits(n);
  }

  /** The value of a hexadecimal digit, in either case. */
  function HexValue(c: char): Option<nat> {
    if '0' <= c <= '9' then Some(c as int - '0' as int)
    else if 'a' <= c <= 'f' then Some(c as int - 'a' as int + 10)
    else if 'A' <= c <= 'F' then Some(c as int - 'A' as int + 10)
    else None
  }

  /** The place of the first `c`, or the length if there is none. */
  function Find(c: char, s: string): (n: nat)
    ensures n <= |s|
    ensures n < |s| ==> s[n] == c
  {
    if s == "" || s[0] == c then 0 else 1 + Find(c, s[1..])
  }

  lemma {:induction false} FindPast(c: char, s: string, rest: string)
    requires c !in s
    ensures Find(c, s + rest) == |s| + Find(c, rest)
  {
    if s == "" {
      assert s + rest == rest;
    } else {
      assert (s + rest)[1..] == s[1..] + rest;
      FindPast(c, s[1..], rest);
    }
  }

  /** What follows the first line. */
  function AfterLine(block: string): (rest: string)
    ensures block != "" ==> |rest| < |block|
  {
    var end := Find('\n', block);
    if end < |block| then block[end + 1..] else ""
  }

  /** There is one way to split a string at its first `c`. */
  lemma {:induction false} SplitAt(c: char, a: string, b: string, a': string, b': string)
    requires a + [c] + b == a' + [c] + b' && c !in a && c !in a'
    ensures a == a' && b == b'
  {
    var l, r := a + [c] + b, a' + [c] + b';
    assert a == "" <==> l[0] == c;
    assert a' == "" <==> r[0] == c;
    if a == "" {
      assert l[1..] == b && r[1..] == b';
    } else {
      assert l[0] == a[0] && r[0] == a'[0];
      assert l[1..] == a[1..] + [c] + b && r[1..] == a'[1..] + [c] + b';
      SplitAt(c, a[1..], b, a'[1..], b');
      assert a == [a[0]] + a[1..] && a' == [a'[0]] + a'[1..];
    }
  }

  predicate Contains(s: string, t: string) {
    |s| >= |t| && (s[..|t|] == t || (s != "" && Contains(s[1..], t)))
  }

  lemma {:induction false} ContainsAt(s: string, before: string, t: string, after: string)
    requires s == before + t + after
    ensures Contains(s, t)
  {
    if before == "" {
      assert s[..|t|] == t;
    } else {
      ContainsAt(s[1..], before[1..], t, after);
    }
  }

  lemma {:induction false} ContainsWhere(s: string, t: string) returns (n: nat)
    requires Contains(s, t)
    ensures n + |t| <= |s| && s[n..n + |t|] == t
  {
    if s[..|t|] == t {
      n := 0;
    } else {
      n := ContainsWhere(s[1..], t);
      assert s[1..][n..n + |t|] == s[n + 1..n + 1 + |t|];
      n := n + 1;
    }
  }

  /** Byte-wise (equally: code-point-wise) string order, as `Ord for str` has it. */
  predicate LexLess(a: seq<int>, b: seq<int>) {
    b != [] && (a == [] || a[0] < b[0] || (a[0] == b[0] && LexLess(a[1..], b[1..])))
  }

  /** The first place where the two differ decides; a text comes before its continuations. */
  lemma {:induction false} LexLessIs(a: seq<int>, b: seq<int>)
    ensures LexLess(a, b) <==> exists n: nat ::
              n <= |a| && n < |b| && a[..n] == b[..n] && (n == |a| || a[n] < b[n])
  {
    if a == [] {
      assert b != [] ==> a[..0] == b[..0];
    } else if b != [] {
      LexLessIs(a[1..], b[1..]);
      if LexLess(a, b) {
        if a[0] < b[0] {
          assert a[..0] == b[..0];
        } else {
          var n: nat :| n <= |a[1..]| && n < |b[1..]| && a[1..][..n] == b[1..][..n] && (n == |a[1..]| || a[1..][n] < b[1..][n]);
          assert a[..n + 1] == [a[0]] + a[1..][..n] && b[..n + 1] == [b[0]] + b[1..][..n];
        }
      }
      if n: nat :| n <= |a| && n < |b| && a[..n] == b[..n] && (n == |a| || a[n] < b[n]) {
        if n > 0 {
          assert a[0] == a[..n][0] == b[..n][0] == b[0];
          assert a[1..][..n - 1] == a[..n][1..] == b[..n][1..] == b[1..][..n - 1];
          assert n - 1 <= |a[1..]| && n - 1 < |b[1..]|;
        }
      }
    }
  }

  lemma {:induction false} LexTrichotomy(a: seq<int>, b: seq<int>)
    ensures a == b || LexLess(a, b) || LexLess(b, a)
    ensures !(LexLess(a, b) && LexLess(b, a))
    ensures !LexLess(a, a)
  {
    if a != [] {
      LexTrichotomy(a[1..], a[1..]);
      if b != [] {
        LexTrichotomy(a[1..], b[1..]);
        if a[0] == b[0] && a[1..] == b[1..] {
          assert a == [a[0]] + a[1..] == b;
        }
      }
    }
  }

  lemma {:induction false} LexTransitive(a: seq<int>, b: seq<int>, c: seq<int>)
    requires LexLess(a, b) && LexLess(b, c)
    ensures LexLess(a, c)
  {
    if a != [] && a[0] == b[0] && b[0] == c[0] {
      LexTransitive(a[1..], b[1..], c[1..]);
    }
  }

  function Codes(s: string): seq<int> {
    seq(|s|, i requires 0 <= i < |s| => s[i] as int)
  }

  lemma CodesInjective(s: string, t: string)
    requires Codes(s) == Codes(t)
    ensures s == t
  {
    assert |s| == |Codes(s)| == |t|;
    forall i | 0 <= i < |s|
      ensures s[i] == t[i]
    {
      assert Codes(s)[i] == Codes(t)[i];
    }
  }

  predicate TextLess(s: string, t: string) {
    LexLess(Codes(s), Codes(t))
  }

  lemma TextTrichotomy(s: string, t: string)
    ensures s == t || TextLess(s, t) || TextLess(t, s)
    ensures !(TextLess(s, t) && TextLess(t, s))
    ensures !TextLess(s, s)
  {
    LexTrichotomy(Codes(s), Codes(t));
    if Codes(s) == Codes(t) {
      CodesInjective(s, t);
    }
  }

  lemma TextTransitive(s: string, t: string, u: string)
    requires TextLess(s, t) && TextLess(t, u)
    ensures TextLess(s, u)
  {
    LexTransitive(Codes(s), Codes(t), Codes(u));
  }
}
