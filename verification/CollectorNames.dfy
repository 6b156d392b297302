/**
 Where a collector's file lives.

 File names are built from the bytes of two free-form names, on filesystems that may fold ASCII
 case; this module states when two collectors, or a collector and a file in transit, share a name.
 */
module CollectorNames {
  import opened Text

  type Byte = b: int | 0 <= b < 256

  type Name = string

  datatype Key = Key(owner: seq<Byte>, name: seq<Byte>)

  const MAX_FULL_NAME: nat := 200
  const PREFIX: nat := 80

  const FNV_OFFSET: nat := 0xcbf2_9ce4_8422_2325
  const FNV_PRIME: nat := 0x0000_0100_0000_01b3

  predicate IsLower(b: Byte) { 97 <= b <= 122 }
  predicate IsUpper(b: Byte) { 65 <= b <= 90 }
  predicate IsPlain(b: Byte) { IsLower(b) || 48 <= b <= 57 || b == 45 || b == 95 }

  /** A hexadecimal digit; `top` is the letter for ten. */
  function Hex(d: nat, top: char): (c: char)
    requires d < 16 && (top == 'A' || top == 'a')
  {
    if d < 10 then ('0' as int + d) as char else (top as int + d - 10) as char
  }

  function EncodeByte(b: Byte): string {
    if IsPlain(b) then [b as char]
    else if IsUpper(b) then ['^', (b + 32) as char]
    else ['%', Hex(b / 16, 'A'), Hex(b % 16, 'A')]
  }

  function Encoded(s: seq<Byte>): string {
    if s == [] then [] else Encoded(s[..|s| - 1]) + EncodeByte(s[|s| - 1])
  }

  /** The encoder as it runs: one pass, pushing onto a growing string. */
  method Encode(s: seq<Byte>) returns (out: string)
    ensures out == Encoded(s)
  {
    out := "";
    for i := 0 to |s|
      invariant out == Encoded(s[..i])
    {
      assert s[..i + 1][..i] == s[..i];
      out := out + EncodeByte(s[i]);
    }
    assert s[..|s|] == s;
  }

  function XorByte(x: Byte, y: Byte): Byte {
    var z := (x as bv8) ^ (y as bv8);
    z as int
  }

  function FnvStep(h: nat, b: Byte): nat {
    (h - h % 256 + XorByte(h % 256, b)) * FNV_PRIME % TWO_64
  }

  function Fnv(bytes: seq<Byte>): (h: nat)
    ensures h < TWO_64
  {
    if bytes == [] then FNV_OFFSET else FnvStep(Fnv(bytes[..|bytes| - 1]), bytes[|bytes| - 1])
  }

  method Fnv1a64(bytes: seq<Byte>) returns (h: nat)
    ensures h == Fnv(bytes)
  {
    h := FNV_OFFSET;
    for i := 0 to |bytes|
      invariant h == Fnv(bytes[..i])
    {
      assert bytes[..i + 1][..i] == bytes[..i];
      h := FnvStep(h, bytes[i]);
    }
    assert bytes[..|bytes|] == bytes;
  }

  /** The hash that stands for a pair of names too long to spell out; `0xFF` never occurs in UTF-8. */
  function HashOf(k: Key): nat {
    Fnv(k.owner + [0xFF] + k.name)
  }

  /** `n` hexadecimal digits of `h`, most significant first. */
  function HexText(h: nat, n: nat): (t: string)
    ensures |t| == n
    ensures forall i :: 0 <= i < n ==> IsHexDigit(t[i])
  {
    if n == 0 then [] else HexText(h / 16, n - 1) + [Hex(h % 16, 'a')]
  }

  predicate IsHexDigit(c: char) {
    '0' <= c <= '9' || 'a' <= c <= 'f'
  }

  function Full(k: Key): Name {
    Encoded(k.owner) + "." + Encoded(k.name) + ".json"
  }

  predicate IsLong(k: Key) {
    |Full(k)| > MAX_FULL_NAME
  }

  function Cut(s: string): string {
    if |s| <= PREFIX then s else s[..PREFIX]
  }

  function Shortened(k: Key): Name {
    Cut(Encoded(k.owner)) + "." + Cut(Encoded(k.name)) + "." + HexText(HashOf(k), 16) + ".json"
  }

  /** The one name a collector's file is saved under. */
  function Canonical(k: Key): Name {
    if IsLong(k) then Shortened(k) else Full(k)
  }

  /** Whether the boot sweep reads a file of this name: its extension is `json`, its stem not empty. */
  predicate IsJson(p: Name) {
    |p| > 5 && p[|p| - 5..] == ".json"
  }

  /** Where a file waits on its way to `canonical`. */
  function Staging(canonical: Name): Name
    requires IsJson(canonical)
  {
    canonical[..|canonical| - 5] + ".moving.json"
  }

  function FoldChar(c: char): char {
    if 'A' <= c <= 'Z' then (c as int + 32) as char else c
  }

  /** What a case-insensitive filesystem compares. */
  function Fold(s: string): string {
    seq(|s|, i requires 0 <= i < |s| => FoldChar(s[i]))
  }

  // ---- Encoding is one-to-one, even once case is folded --------------------------------------

  predicate IsPartChar(c: char) {
    'a' <= c <= 'z' || 'A' <= c <= 'F' || '0' <= c <= '9' || c == '-' || c == '_' || c == '^' || c == '%'
  }

  lemma {:induction false} EncodedChars(s: seq<Byte>)
    ensures forall i :: 0 <= i < |Encoded(s)| ==> IsPartChar(Encoded(s)[i])
  {
    if s != [] {
      EncodedChars(s[..|s| - 1]);
    }
  }

  lemma FoldConcat(s: string, t: string)
    ensures Fold(s + t) == Fold(s) + Fold(t)
  {
  }

  /** Reads one encoded byte off the front of a case-folded name. */
  function DecodeHead(t: string): Option<(Byte, string)> {
    if t == [] then None
    else if t[0] == '^' then
      if |t| >= 2 && 'a' <= t[1] <= 'z' then Some((t[1] as int - 32, t[2..])) else None
    else if t[0] == '%' then
      if |t| >= 3 && HexValue(t[1]).Some? && HexValue(t[2]).Some?
      then Some((16 * HexValue(t[1]).value + HexValue(t[2]).value, t[3..])) else None
    else if t[0] as int < 256 then Some((t[0] as int, t[1..]))
    else None
  }

  lemma DecodeEncodeByte(b: Byte, rest: string)
    ensures DecodeHead(Fold(EncodeByte(b)) + rest) == Some((b, rest))
  {
    var f := Fold(EncodeByte(b));
    if IsPlain(b) {
      assert f == [b as char];
      assert (f + rest)[1..] == rest;
    } else if IsUpper(b) {
      assert f == ['^', (b + 32) as char];
      assert (f + rest)[2..] == rest;
    } else {
      assert |f| == 3 && f[0] == '%';
      assert HexValue(f[1]) == Some(b / 16) && HexValue(f[2]) == Some(b % 16);
      assert (f + rest)[3..] == rest;
    }
  }

  lemma {:induction false} EncodedHead(s: seq<Byte>)
    requires s != []
    ensures Encoded(s) == EncodeByte(s[0]) + Encoded(s[1..])
  {
    if |s| == 1 {
      assert s[..0] == [] && s[1..] == [];
    } else {
      var i := s[..|s| - 1];
      EncodedHead(i);
      assert i[1..] == s[1..][..|s| - 2];
      assert s[1..][|s| - 2] == s[|s| - 1];
    }
  }

  lemma DecodeEncoded(s: seq<Byte>)
    requires s != []
    ensures DecodeHead(Fold(Encoded(s))) == Some((s[0], Fold(Encoded(s[1..]))))
  {
    EncodedHead(s);
    FoldConcat(EncodeByte(s[0]), Encoded(s[1..]));
    DecodeEncodeByte(s[0], Fold(Encoded(s[1..])));
  }

  /** Two names whose encodings agree up to ASCII case are the same name. */
  lemma {:induction false} EncodeInjective(s: seq<Byte>, t: seq<Byte>)
    requires Fold(Encoded(s)) == Fold(Encoded(t))
    ensures s == t
    decreases |s|
  {
    if s != [] { DecodeEncoded(s); }
    if t != [] { DecodeEncoded(t); }
    assert DecodeHead(Fold(Encoded([]))) == None;
    if s != [] {
      EncodeInjective(s[1..], t[1..]);
      assert s == [s[0]] + s[1..] && t == [t[0]] + t[1..];
    }
  }

  // ---- Counting dots tells the three kinds of name apart -------------------------------------

  function Dots(s: string): nat {
    if s == [] then 0 else (if s[0] == '.' then 1 else 0) + Dots(s[1..])
  }

  lemma {:induction false} DotsConcat(s: string, t: string)
    ensures Dots(s + t) == Dots(s) + Dots(t)
  {
    if s == [] {
      assert s + t == t;
    } else {
      assert (s + t)[1..] == s[1..] + t;
      DotsConcat(s[1..], t);
    }
  }

  lemma {:induction false} DotsFold(s: string)
    ensures Dots(Fold(s)) == Dots(s)
  {
    if s != [] {
      assert Fold(s)[1..] == Fold(s[1..]);
      DotsFold(s[1..]);
    }
  }

  lemma {:induction false} NoDots(s: string)
    requires forall i :: 0 <= i < |s| ==> s[i] != '.'
    ensures Dots(s) == 0
  {
    if s != [] {
      NoDots(s[1..]);
    }
  }

  lemma PartHasNoDots(s: seq<Byte>)
    ensures Dots(Encoded(s)) == 0 && Dots(Cut(Encoded(s))) == 0
  {
    EncodedChars(s);
    NoDots(Encoded(s));
    NoDots(Cut(Encoded(s)));
  }

  lemma JsonDots()
    ensures Dots(".json") == 1 && Dots(".") == 1
  {
    NoDots("json");
    NoDots("");
    assert ".json"[1..] == "json" && "."[1..] == "";
  }

  lemma MovingDots()
    ensures Dots(".moving.json") == 2
  {
    JsonDots();
    NoDots("moving");
    assert ".moving.json" == "." + ("moving" + ".json");
    hide Dots;
    DotsConcat("moving", ".json");
    DotsConcat(".", "moving" + ".json");
  }

  lemma FullDots(k: Key)
    ensures Dots(Full(k)) == 2
  {
    PartHasNoDots(k.owner);
    PartHasNoDots(k.name);
    JsonDots();
    DotsConcat(Encoded(k.owner) + "." + Encoded(k.name), ".json");
    DotsConcat(Encoded(k.owner) + ".", Encoded(k.name));
    DotsConcat(Encoded(k.owner), ".");
  }

  lemma ShortenedDots(k: Key)
    ensures Dots(Shortened(k)) == 3
  {
    var h := HexText(HashOf(k), 16);
    PartHasNoDots(k.owner);
    PartHasNoDots(k.name);
    JsonDots();
    NoDots(h);
    hide Encoded, Cut, HexText, Dots;
    DotsConcat(Cut(Encoded(k.owner)) + "." + Cut(Encoded(k.name)) + "." + h, ".json");
    DotsConcat(Cut(Encoded(k.owner)) + "." + Cut(Encoded(k.name)) + ".", h);
    DotsConcat(Cut(Encoded(k.owner)) + "." + Cut(Encoded(k.name)), ".");
    DotsConcat(Cut(Encoded(k.owner)) + ".", Cut(Encoded(k.name)));
    DotsConcat(Cut(Encoded(k.owner)), ".");
  }

  lemma CanonicalIsJson(k: Key)
    ensures IsJson(Canonical(k)) && IsJson(Staging(Canonical(k)))
  {
  }

  lemma StagingDots(c: Name)
    requires IsJson(c)
    ensures Dots(Staging(c)) == Dots(c) + 1
  {
    var stem := c[..|c| - 5];
    assert c == stem + ".json";
    DotsConcat(stem, ".json");
    DotsConcat(stem, ".moving.json");
    JsonDots();
    MovingDots();
  }

  /** A file in transit is never at any collector's own name, however case is folded. */
  lemma StagingIsNotCanonical(k1: Key, k2: Key)
    ensures IsJson(Canonical(k1))
    ensures Fold(Staging(Canonical(k1))) != Fold(Canonical(k2))
  {
    var c1, c2 := Canonical(k1), Canonical(k2);
    CanonicalIsJson(k1);
    var s := Staging(c1);
    StagingDots(c1);
    DotsFold(s);
    DotsFold(c2);
    if IsLong(k1) { ShortenedDots(k1); } else { FullDots(k1); }
    if IsLong(k2) {
      var h := HexText(HashOf(k2), 16);
      assert c2[|c2| - 6] == h[15];
      assert s[|s| - 6] == 'g';
      if |s| == |c2| {
        assert Fold(s)[|s| - 6] != Fold(c2)[|s| - 6];
      }
    } else {
      FullDots(k2);
    }
  }

  /** Two collectors in transit wait at the same name only if they belong at the same name. */
  lemma StagingInjective(c1: Name, c2: Name)
    requires IsJson(c1) && IsJson(c2) && Staging(c1) == Staging(c2)
    ensures c1 == c2
  {
    assert |c1| == |c2|;
    assert c1[..|c1| - 5] == Staging(c1)[..|c1| - 5];
    assert c2[..|c2| - 5] == Staging(c2)[..|c2| - 5];
    assert c1 == c1[..|c1| - 5] + ".json" && c2 == c2[..|c2| - 5] + ".json";
  }

  /** A spelled-out name and a shortened one never meet. */
  lemma FullIsNotShortened(k1: Key, k2: Key)
    ensures Fold(Full(k1)) != Fold(Shortened(k2))
  {
    FullDots(k1);
    ShortenedDots(k2);
    DotsFold(Full(k1));
    DotsFold(Shortened(k2));
  }

  /** No file name exceeds the budget that leaves room for the temporary and staging suffixes. */
  lemma CanonicalLength(k: Key)
    ensures |Canonical(k)| <= MAX_FULL_NAME && |Staging(Canonical(k))| <= MAX_FULL_NAME + 7
  {
    CanonicalIsJson(k);
  }

  // ---- Canonical names are one-to-one up to a hash collision ---------------------------------

  /** A dot never appears inside an encoded part, in either case. */
  lemma PartFolded(s: seq<Byte>)
    ensures '.' !in Fold(Encoded(s))
  {
    EncodedChars(s);
  }

  lemma FoldJoin(a: string, b: string)
    ensures Fold(a + "." + b) == Fold(a) + "." + Fold(b)
  {
    FoldConcat(a + ".", b);
    FoldConcat(a, ".");
    assert Fold(".") == ".";
  }

  /** Spelled-out names are one-to-one in (owner, name), even on a filesystem that folds case. */
  lemma FullInjective(k1: Key, k2: Key)
    requires Fold(Full(k1)) == Fold(Full(k2))
    ensures k1 == k2
  {
    var (o1, n1) := (Encoded(k1.owner), Encoded(k1.name));
    var (o2, n2) := (Encoded(k2.owner), Encoded(k2.name));
    assert Full(k1) == o1 + "." + (n1 + ".json") && Full(k2) == o2 + "." + (n2 + ".json");
    FoldJoin(o1, n1 + ".json");
    FoldJoin(o2, n2 + ".json");
    PartFolded(k1.owner);
    PartFolded(k2.owner);
    SplitAt('.', Fold(o1), Fold(n1 + ".json"), Fold(o2), Fold(n2 + ".json"));
    FoldConcat(n1, ".json");
    FoldConcat(n2, ".json");
    var (f1, f2) := (Fold(n1) + Fold(".json"), Fold(n2) + Fold(".json"));
    assert |Fold(n1)| == |Fold(n2)|;
    assert f1[..|Fold(n1)|] == Fold(n1) && f2[..|Fold(n2)|] == Fold(n2);
    EncodeInjective(k1.owner, k2.owner);
    EncodeInjective(k1.name, k2.name);
  }

  lemma {:induction false} HexTextInjective(g: nat, h: nat, n: nat, bound: nat)
    requires HexText(g, n) == HexText(h, n)
    requires g < bound && h < bound && bound == Pow16(n)
    ensures g == h
  {
    if n > 0 {
      var (s, t) := (HexText(g, n), HexText(h, n));
      assert s[..n - 1] == HexText(g / 16, n - 1) && t[..n - 1] == HexText(h / 16, n - 1);
      assert s[n - 1] == Hex(g % 16, 'a') && t[n - 1] == Hex(h % 16, 'a');
      HexTextInjective(g / 16, h / 16, n - 1, Pow16(n - 1));
    }
  }

  function Pow16(n: nat): nat {
    if n == 0 then 1 else 16 * Pow16(n - 1)
  }

  lemma Pow16Is64Bits()
    ensures Pow16(16) == TWO_64
  {
    assert Pow16(4) == 65536;
    assert Pow16(8) == 65536 * Pow16(4) by {
      assert Pow16(8) == 16 * Pow16(7) && Pow16(7) == 16 * Pow16(6) && Pow16(6) == 16 * Pow16(5) && Pow16(5) == 16 * Pow16(4);
    }
    assert Pow16(12) == 65536 * Pow16(8) by {
      assert Pow16(12) == 16 * Pow16(11) && Pow16(11) == 16 * Pow16(10) && Pow16(10) == 16 * Pow16(9) && Pow16(9) == 16 * Pow16(8);
    }
    assert Pow16(16) == 65536 * Pow16(12) by {
      assert Pow16(16) == 16 * Pow16(15) && Pow16(15) == 16 * Pow16(14) && Pow16(14) == 16 * Pow16(13) && Pow16(13) == 16 * Pow16(12);
    }
  }

  lemma ShortenedHash(k1: Key, k2: Key)
    requires Fold(Shortened(k1)) == Fold(Shortened(k2))
    ensures HashOf(k1) == HashOf(k2)
  {
    var (h1, h2) := (HexText(HashOf(k1), 16), HexText(HashOf(k2), 16));
    hide Fold, HexText, Cut, Encoded;
    SameHash(Cut(Encoded(k1.owner)) + "." + Cut(Encoded(k1.name)) + ".", h1, Cut(Encoded(k2.owner)) + "." + Cut(Encoded(k2.name)) + ".", h2);
    Pow16Is64Bits();
    HexTextInjective(HashOf(k1), HashOf(k2), 16, TWO_64);
  }

  lemma SameHash(p1: string, h1: string, p2: string, h2: string)
    requires |h1| == |h2| && forall i :: 0 <= i < |h1| ==> IsHexDigit(h1[i]) && IsHexDigit(h2[i])
    requires Fold(p1 + h1 + ".json") == Fold(p2 + h2 + ".json")
    ensures h1 == h2
  {
    var (s1, s2) := (p1 + h1 + ".json", p2 + h2 + ".json");
    assert |Fold(s1)| == |s1| == |s2|;
    forall i | 0 <= i < |h1|
      ensures h1[i] == h2[i]
    {
      assert s1[|p1| + i] == h1[i] && s2[|p2| + i] == h2[i];
      assert Fold(s1)[|p1| + i] == FoldChar(h1[i]) && Fold(s2)[|p2| + i] == FoldChar(h2[i]);
    }
  }

  /** Whether both names are shortened and their hashes coincide. */
  predicate HashesCollide(k1: Key, k2: Key) {
    IsLong(k1) && IsLong(k2) && HashOf(k1) == HashOf(k2)
  }

  /**
   No two collectors share a file, on any filesystem, unless both names were shortened and their
   64-bit hashes coincide.
   */
  lemma CanonicalInjective(k1: Key, k2: Key)
    requires Fold(Canonical(k1)) == Fold(Canonical(k2)) && k1 != k2
    ensures HashesCollide(k1, k2)
  {
    if IsLong(k1) && IsLong(k2) {
      ShortenedHash(k1, k2);
    } else if IsLong(k1) {
      FullIsNotShortened(k2, k1);
    } else if IsLong(k2) {
      FullIsNotShortened(k1, k2);
    } else {
      FullInjective(k1, k2);
    }
  }


  // ---- What names look like ----------------------------------------------------------------------

  function AsText(s: seq<Byte>): (r: string)
    ensures |r| == |s| && forall i :: 0 <= i < |r| ==> r[i] == s[i] as char
  {
    seq(|s|, i requires 0 <= i < |s| => s[i] as char)
  }

  predicate InPlainAlphabet(b: Byte) {
    b as char in "abcdefghijklmnopqrstuvwxyz0123456789-_"
  }

  predicate AllPlain(s: seq<Byte>) {
    forall i :: 0 <= i < |s| ==> InPlainAlphabet(s[i])
  }

  lemma PlainByte(b: Byte)
    requires InPlainAlphabet(b)
    ensures EncodeByte(b) == [b as char]
  {
  }

  /** Lower-case letters, digits, `-` and `_` stay as they are. */
  lemma {:induction false} PlainKept(s: seq<Byte>)
    requires AllPlain(s)
    ensures Encoded(s) == AsText(s)
  {
    hide InPlainAlphabet, EncodeByte;
    if s != [] {
      PlainByte(s[|s| - 1]);
      PlainKept(s[..|s| - 1]);
      assert AsText(s) == AsText(s[..|s| - 1]) + [s[|s| - 1] as char];
    }
  }

  /** So a plain owner and name of moderate length make up the file name, with dots between. */
  lemma PlainCanonical(k: Key)
    requires AllPlain(k.owner) && AllPlain(k.name) && |k.owner| + |k.name| <= 194
    ensures Canonical(k) == AsText(k.owner) + "." + AsText(k.name) + ".json"
  {
    PlainKept(k.owner);
    PlainKept(k.name);
  }

  /** Upper case and everything else, by example: `Aa` and `./%^`. */
  lemma OthersSpelled()
    ensures EncodeByte(65) == "^a" && EncodeByte(90) == "^z" && EncodeByte(97) == "a"
    ensures EncodeByte(46) == "%2E" && EncodeByte(47) == "%2F" && EncodeByte(37) == "%25" && EncodeByte(94) == "%5E"
    ensures EncodeByte(0) == "%00" && EncodeByte(255) == "%FF" && EncodeByte(64) == "%40" && EncodeByte(91) == "%5B"
  {
  }

  lemma XorKnown()
    ensures XorByte(0x25, 97) == 0x44
  {
  }

  lemma ProductKnown()
    ensures 14695981039346656068 * 0x0000_0100_0000_01b3 % 0x1_0000_0000_0000_0000 == 12638187200555641996
  {
  }

  lemma StepKnown(b: Byte)
    requires b == 97
    ensures FnvStep(14695981039346656037, b) == 12638187200555641996
  {
    XorKnown();
    ProductKnown();
    hide XorByte;
    var h: nat := 14695981039346656037;
    assert h % 256 == 0x25;
    assert h - h % 256 + XorByte(h % 256, b) == 14695981039346656068;
  }

  /** The published values of the hash for no input and for `a`. */
  lemma FnvKnown()
    ensures Fnv([]) == 14695981039346656037 && Fnv([97]) == 12638187200555641996
  {
    hide FnvStep;
    var one: seq<Byte> := [97];
    assert one[..|one| - 1] == [] && one[|one| - 1] == 97;
    StepKnown(one[0]);
  }

  /**
   A pair too long to spell out: up to eighty characters of each name, and the hash of the bytes of both with
   a byte between that neither holds, so that it tells the two names apart from any other split of them.
   */
  lemma ShortenedSpelled(k: Key)
    requires |Encoded(k.owner)| + |Encoded(k.name)| > 194
    ensures var (o, n) := (Encoded(k.owner), Encoded(k.name));
      Canonical(k) ==
        (if |o| > 80 then o[..80] else o) + "." + (if |n| > 80 then n[..80] else n) + "."
        + HexText(Fnv(k.owner + [0xFF] + k.name), 16) + ".json"
  {
    hide HexText, Encoded, Fnv;
  }

  lemma HexSpelled()
    ensures HexText(0xbeef, 4) == "beef" && HexText(0x0a10, 4) == "0a10"
  {
  }

  lemma StagingSpelled(stem: string)
    requires stem != ""
    ensures IsJson(stem + ".json") && Staging(stem + ".json") == stem + ".moving.json"
  {
    var p := stem + ".json";
    assert p[|p| - 5..] == ".json" && p[..|p| - 5] == stem;
  }
}
