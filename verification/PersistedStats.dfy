/** Statistics on disk: restoring undoes persisting, and refuses counts that would underflow. */
module PersistedStats {
  import opened Text
  import opened Stats

  /** What names a sketch's layout; `parameters` stands for its numbers. */
  datatype Layout = Layout(algo: string, unit: string, parameters: nat)

  const ALGO := "ddsketch"
  const UNIT := "ns"

  type U64 = n: nat | n < TWO_64

  /** How a sketch's contents are written and read. */
  datatype Bytes<!B> = Bytes(encode: multiset<nat> -> B, decode: B -> Option<multiset<nat>>)

  ghost predicate Faithful<B>(c: Bytes<B>) {
    forall v :: c.decode(c.encode(v)) == Some(v)
  }

  datatype File<B> = File(
    count: U64, totalText: string, min: Option<I64>, max: Option<I64>, errors: U64,
    negative: U64, malformed: U64, outOfRange: U64, sketch: B, layout: Layout)

  datatype RestoreError = UnknownLayout | BadSketch | InconsistentCounts | BadTotal

  /** Decimal, with a sign if negative. */
  function IntText(n: int): string {
    if n < 0 then "-" + NatText(-n) else NatText(n)
  }

  /** `str::parse::<i128>`: an optional sign, at least one digit, and a value that fits. */
  function ParseI128(s: string): Option<int> {
    var signed := s != "" && (s[0] == '-' || s[0] == '+');
    var digits := if signed then s[1..] else s;
    if digits == "" || !AllDigits(digits) then None
    else
      var value: int := DigitsValue(digits);
      var n := if s[0] == '-' then -value else value;
      if -TWO_127 <= n < TWO_127 then Some(n) else None
  }

  lemma I128RoundTrip(n: int)
    requires -TWO_127 <= n < TWO_127
    ensures ParseI128(IntText(n)) == Some(n)
  {
    var t := NatText(if n < 0 then -n else n);
    NatTextDigits(if n < 0 then -n else n);
    assert IsDigit(t[0]);
    assert ("-" + t)[1..] == t;
  }

  /** What the fields of the statistics can hold. */
  predicate Fits(e: Exact<Layout>) {
    && e.count < TWO_64 && e.errors < TWO_64 && e.negative < TWO_64 && e.malformed < TWO_64 && e.outOfRange < TWO_64
    && -TWO_127 <= e.total < TWO_127
    && (e.min.Some? ==> -TWO_63 <= e.min.value < TWO_63) && (e.max.Some? ==> -TWO_63 <= e.max.value < TWO_63)
  }

  function Persist<B>(codec: Bytes<B>, e: Exact<Layout>): File<B>
    requires Fits(e)
  {
    File(
      e.count, IntText(e.total), if e.min.Some? then Some(e.min.value) else None, if e.max.Some? then Some(e.max.value) else None,
      e.errors, e.negative, e.malformed, e.outOfRange, codec.encode(e.sketch.values), e.sketch.layout)
  }

  function SaturatingAdd(a: nat, b: nat): nat {
    if a + b > MAX_U64 then MAX_U64 else a + b
  }

  /** No more spans left out of the sum than there were, as 64-bit saturating addition sees it. */
  predicate Consistent(count: nat, negative: nat, malformed: nat) {
    SaturatingAdd(negative, malformed) <= count
  }

  function Restore<B>(codec: Bytes<B>, f: File<B>): Result<Exact<Layout>, RestoreError> {
    if f.layout.algo != ALGO || f.layout.unit != UNIT then Failure(UnknownLayout)
    else
      match codec.decode(f.sketch)
      case None => Failure(BadSketch)
      case Some(values) =>
        if !Consistent(f.count, f.negative, f.malformed) then Failure(InconsistentCounts)
        else match ParseI128(f.totalText)
          case None => Failure(BadTotal)
          case Some(total) =>
            Success(Exact(f.count, total, f.min, f.max, f.errors, f.negative, f.malformed, f.outOfRange, Sketch(f.layout, values)))
  }

  /** Restoring undoes persisting exactly for the statistics whose layout is known and whose counts agree. */
  lemma RestorePersisted<B>(codec: Bytes<B>, e: Exact<Layout>)
    requires Faithful(codec) && Fits(e)
    ensures Restore(codec, Persist(codec, e)) == Success(e)
            <==> e.sketch.layout.algo == ALGO && e.sketch.layout.unit == UNIT && Consistent(e.count, e.negative, e.malformed)
  {
    I128RoundTrip(e.total);
    assert codec.decode(codec.encode(e.sketch.values)) == Some(e.sketch.values);
  }

  /** In particular everything that was recorded comes back. */
  lemma RecordedComesBack<B>(codec: Bytes<B>, parameters: nat, offers: seq<Offer>)
    requires Faithful(codec) && Fits(Of(Layout(ALGO, UNIT, parameters), offers))
    ensures var e := Of(Layout(ALGO, UNIT, parameters), offers); Restore(codec, Persist(codec, e)) == Success(e)
  {
    var l := Layout(ALGO, UNIT, parameters);
    OfSane(l, offers);
    OfLayout(l, offers);
    RestorePersisted(codec, Of(l, offers));
  }

  /**
   What a restored file counts as well formed is not negative — so the 64-bit subtraction does not
   wrap — exactly when the two excluded counts add up to a 64-bit number, so that nothing saturates.
   */
  lemma RestoredNeverUnderflows<B>(codec: Bytes<B>, f: File<B>)
    requires Restore(codec, f).Success?
    ensures WellFormed(Restore(codec, f).value) >= 0 <==> f.negative + f.malformed <= MAX_U64
  {
  }

  /** A file whose excluded counts saturate: it is accepted, and its well-formed count is negative. */
  lemma SaturationHidesAnExcess<B>(codec: Bytes<B>, b: B)
    requires codec.decode(b).Some?
    ensures var f := File(MAX_U64, "0", None, None, 0, MAX_U64, 1, 0, b, Layout(ALGO, UNIT, 0));
      Restore(codec, f).Success? && WellFormed(Restore(codec, f).value) < 0
  {
    assert "0"[..0] == "" && DigitsValue("0") == 0;
  }

  /** Exactly what is refused, and that whatever is accepted is restored as the file says. */
  lemma RestoredWhen<B>(codec: Bytes<B>, f: File<B>)
    ensures Restore(codec, f).Success? <==>
              && f.layout.algo == "ddsketch" && f.layout.unit == "ns" && codec.decode(f.sketch).Some?
              && (f.negative + f.malformed <= f.count || f.count == MAX_U64) && ParseI128(f.totalText).Some?
    ensures Restore(codec, f).Success? ==>
              var e := Restore(codec, f).value;
              && e.count == f.count && Some(e.total) == ParseI128(f.totalText) && e.min == f.min && e.max == f.max
              && e.errors == f.errors && e.negative == f.negative && e.malformed == f.malformed && e.outOfRange == f.outOfRange
              && e.sketch.layout == f.layout && Some(e.sketch.values) == codec.decode(f.sketch)
  {
    hide ParseI128;
  }
}
