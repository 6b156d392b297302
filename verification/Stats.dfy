/**
 The always-exact statistics of a set of spans: a homomorphism from multisets of durations, whatever
 order they arrive in and however they are split over runs.
 */
module Stats {
  import opened Text
  import opened Sorting

  const TWO_63: int := 0x8000_0000_0000_0000
  const TWO_127: int := 0x8000_0000_0000_0000_0000_0000_0000_0000
  const MAX_U64: nat := TWO_64 - 1

  /** The range the duration sketch declares, in nanoseconds. */
  const MIN_NS: nat := 1
  const MAX_NS: nat := 3_600_000_000_000

  type I64 = n: int | -TWO_63 <= n < TWO_63

  // ---- Classifying a span ------------------------------------------------------------------------

  datatype Span = Ok(ns: nat) | Negative | Malformed

  /** Two's complement, as 64-bit subtraction leaves it. */
  function Wrap64(n: int): I64 {
    (n + TWO_63) % (2 * TWO_63) - TWO_63
  }

  /** `None` is an instant outside the representable nanosecond range; zero is a missing one. */
  function Classify(start: Option<I64>, end: Option<I64>): Span {
    if start.None? || end.None? || start.value == 0 || end.value == 0 then Malformed
    else
      var d := Wrap64(end.value - start.value);
      if d < 0 then Negative else Ok(d)
  }

  /** The true duration is what is recorded exactly when it fits in 64 bits and is not negative. */
  lemma ClassifyTrue(start: I64, end: I64)
    requires start != 0 && end != 0
    ensures Classify(Some(start), Some(end)) == (if end >= start then Ok(end - start) else Negative)
            <==> -TWO_63 <= end - start < TWO_63
  {
  }

  // ---- The sketch, as far as it matters here -----------------------------------------------------

  /** A duration sketch: the layout it was made with, and the values put in. */
  datatype Sketch<L> = Sketch(layout: L, values: multiset<nat>)

  /** What the sketch counts a duration as: below its range as zero, above it as the top. */
  function Clamped(ns: nat): nat {
    if ns <= MIN_NS then 0 else if ns > MAX_NS then MAX_NS else ns
  }

  datatype Mismatch = Mismatch

  // ---- The statistics ----------------------------------------------------------------------------

  datatype Exact<L> = Exact(
    count: nat, total: int, min: Option<int>, max: Option<int>, errors: nat,
    negative: nat, malformed: nat, outOfRange: nat, sketch: Sketch<L>)

  /** One span offered. */
  datatype Offer = Offer(span: Span, isError: bool)

  function Empty<L>(layout: L): Exact<L> {
    Exact(0, 0, None, None, 0, 0, 0, 0, Sketch(layout, multiset{}))
  }

  function Least(a: Option<int>, b: Option<int>): Option<int> {
    if a.Some? && b.Some? then (if a.value <= b.value then a else b) else if a.Some? then a else b
  }

  function Greatest(a: Option<int>, b: Option<int>): Option<int> {
    if a.Some? && b.Some? then (if a.value >= b.value then a else b) else if a.Some? then a else b
  }

  function Recorded<L>(e: Exact<L>, o: Offer): Exact<L> {
    var c := e.(count := e.count + 1, errors := e.errors + if o.isError then 1 else 0);
    match o.span
    case Malformed => c.(malformed := e.malformed + 1)
    case Negative => c.(negative := e.negative + 1)
    case Ok(ns) => c.(
      total := e.total + ns, min := Least(e.min, Some(ns)), max := Greatest(e.max, Some(ns)),
      outOfRange := e.outOfRange + (if ns > MAX_NS then 1 else 0),
      sketch := e.sketch.(values := e.sketch.values + multiset{Clamped(ns)}))
  }

  function Of<L>(layout: L, offers: seq<Offer>): Exact<L> {
    if offers == [] then Empty(layout) else Recorded(Of(layout, offers[..|offers| - 1]), offers[|offers| - 1])
  }

  /** The sum of two, where their sketches agree on a layout. */
  function Sum<L>(a: Exact<L>, b: Exact<L>): Exact<L> {
    Exact(
      a.count + b.count, a.total + b.total, Least(a.min, b.min), Greatest(a.max, b.max), a.errors + b.errors,
      a.negative + b.negative, a.malformed + b.malformed, a.outOfRange + b.outOfRange,
      Sketch(a.sketch.layout, a.sketch.values + b.sketch.values))
  }

  function Merged<L(==)>(a: Exact<L>, b: Exact<L>): Result<Exact<L>, Mismatch> {
    if a.sketch.layout != b.sketch.layout then Failure(Mismatch.Mismatch) else Success(Sum(a, b))
  }

  class ExactStats<L(==)> {
    var count: nat
    var total: int
    var min: Option<int>
    var max: Option<int>
    var errors: nat
    var negative: nat
    var malformed: nat
    var outOfRange: nat
    var sketch: Sketch<L>

    function Now(): Exact<L>
      reads this
    {
      Exact(count, total, min, max, errors, negative, malformed, outOfRange, sketch)
    }

    constructor (layout: L)
      ensures Now() == Empty(layout)
    {
      count, total, min, max, errors := 0, 0, None, None, 0;
      negative, malformed, outOfRange, sketch := 0, 0, 0, Sketch(layout, multiset{});
    }

    method Record(o: Offer)
      modifies this
      ensures Now() == Recorded(old(Now()), o)
    {
      count := count + 1;
      if o.isError {
        errors := errors + 1;
      }
      match o.span {
        case Malformed => malformed := malformed + 1;
        case Negative => negative := negative + 1;
        case Ok(ns) =>
          total := total + ns;
          min, max := Least(min, Some(ns)), Greatest(max, Some(ns));
          sketch := sketch.(values := sketch.values + multiset{Clamped(ns)});
          if ns > MAX_NS {
            outOfRange := outOfRange + 1;
          }
      }
    }

    method Merge(other: ExactStats<L>) returns (r: Result<(), Mismatch>)
      requires other != this
      modifies this
      ensures other.Now() == old(other.Now())
      ensures match Merged(old(Now()), other.Now())
              case Failure(e) => r == Failure(e) && Now() == old(Now())
              case Success(s) => r == Success(()) && Now() == s
    {
      if sketch.layout != other.sketch.layout {
        return Failure(Mismatch.Mismatch);
      }
      sketch := sketch.(values := sketch.values + other.sketch.values);
      count, total, errors := count + other.count, total + other.total, errors + other.errors;
      negative, malformed, outOfRange := negative + other.negative, malformed + other.malformed, outOfRange + other.outOfRange;
      min, max := Least(min, other.min), Greatest(max, other.max);
      r := Success(());
    }
  }

  // ---- Sums do not depend on grouping or order ---------------------------------------------------

  lemma SumCommutes<L>(a: Exact<L>, b: Exact<L>)
    requires a.sketch.layout == b.sketch.layout
    ensures Sum(a, b) == Sum(b, a)
  {
  }

  lemma MultisetAssociates(a: multiset<nat>, b: multiset<nat>, c: multiset<nat>)
    ensures (a + b) + c == a + (b + c)
  {
    assert forall x :: ((a + b) + c)[x] == (a + (b + c))[x];
  }

  lemma SumAssociates<L>(a: Exact<L>, b: Exact<L>, c: Exact<L>)
    ensures Sum(Sum(a, b), c) == Sum(a, Sum(b, c))
  {
    MultisetAssociates(a.sketch.values, b.sketch.values, c.sketch.values);
  }

  lemma {:induction false} OfLayout<L>(layout: L, offers: seq<Offer>)
    ensures Of(layout, offers).sketch.layout == layout
  {
    if offers != [] {
      OfLayout(layout, offers[..|offers| - 1]);
    }
  }

  lemma OfOne<L>(layout: L, o: Offer)
    ensures Of(layout, [o]) == Recorded(Empty(layout), o)
  {
    var one := [o];
    assert one[..|one| - 1] == [] && one[|one| - 1] == o;
    assert Of(layout, []) == Empty(layout);
  }

  lemma RecordedIsSum<L>(e: Exact<L>, o: Offer)
    ensures Recorded(e, o) == Sum(e, Of(e.sketch.layout, [o]))
  {
    OfOne(e.sketch.layout, o);
    assert e.sketch.values + multiset{} == e.sketch.values;
  }

  /** Merging two folds is folding the concatenation. */
  lemma {:induction false} OfConcat<L>(layout: L, a: seq<Offer>, b: seq<Offer>)
    ensures Of(layout, a + b) == Sum(Of(layout, a), Of(layout, b))
  {
    OfLayout(layout, a);
    if b == [] {
      assert a + b == a;
      assert Of(layout, a).sketch.values + multiset{} == Of(layout, a).sketch.values;
    } else {
      var front, o := b[..|b| - 1], b[|b| - 1];
      assert (a + b)[..|a + b| - 1] == a + front;
      OfConcat(layout, a, front);
      OfLayout(layout, front);
      OfLayout(layout, a + front);
      RecordedIsSum(Of(layout, a + front), o);
      RecordedIsSum(Of(layout, front), o);
      SumAssociates(Of(layout, a), Of(layout, front), Of(layout, [o]));
    }
  }

  /** The order spans arrive in makes no difference. */
  lemma {:induction false} OfAnyOrder<L>(layout: L, a: seq<Offer>, b: seq<Offer>)
    requires multiset(a) == multiset(b)
    ensures Of(layout, a) == Of(layout, b)
    decreases |a|
  {
    if a == [] {
      assert |multiset(b)| == 0;
    } else {
      var o, rest := a[0], a[1..];
      assert a == [o] + rest;
      var l, r := Around(a, b, o);
      assert multiset(a) == multiset{o} + multiset(rest);
      WithoutOne(rest, o, l, r);
      assert l + [o] + r == l + ([o] + r);
      hide Of, Sum;
      OfAnyOrder(layout, rest, l + r);
      OfConcat(layout, [o], rest);
      OfConcat(layout, l, r);
      OfConcat(layout, l, [o] + r);
      OfConcat(layout, [o], r);
      var (s, x, y) := (Of(layout, l), Of(layout, [o]), Of(layout, r));
      OfLayout(layout, l);
      OfLayout(layout, [o]);
      SumAssociates(s, x, y);
      SumCommutes(s, x);
      SumAssociates(x, s, y);
    }
  }

  // ---- What the figures mean ---------------------------------------------------------------------

  function HowMany(offers: seq<Offer>, counts: Offer -> bool): nat {
    if offers == [] then 0 else HowMany(offers[..|offers| - 1], counts) + if counts(offers[|offers| - 1]) then 1 else 0
  }

  /** The durations that could be measured. */
  function Measured(offers: seq<Offer>): seq<nat> {
    if offers == [] then []
    else
      var (front, last) := (Measured(offers[..|offers| - 1]), offers[|offers| - 1].span);
      if last.Ok? then front + [last.ns] else front
  }

  function TotalOf(ns: seq<nat>): nat {
    if ns == [] then 0 else TotalOf(ns[..|ns| - 1]) + ns[|ns| - 1]
  }

  function ClampedAll(ns: seq<nat>): (r: seq<nat>)
    ensures |r| == |ns| && forall i :: 0 <= i < |r| ==> r[i] == Clamped(ns[i])
  {
    seq(|ns|, i requires 0 <= i < |ns| => Clamped(ns[i]))
  }

  predicate IsError(o: Offer) { o.isError }
  predicate IsNegative(o: Offer) { o.span.Negative? }
  predicate IsMalformed(o: Offer) { o.span.Malformed? }
  predicate IsOutOfRange(o: Offer) { o.span.Ok? && o.span.ns > MAX_NS }

  /** The counters count what their names say. */
  lemma {:induction false} CountersCount<L>(layout: L, offers: seq<Offer>)
    ensures var e := Of(layout, offers);
      && e.count == |offers| && e.errors == HowMany(offers, IsError) && e.negative == HowMany(offers, IsNegative)
      && e.malformed == HowMany(offers, IsMalformed) && e.outOfRange == HowMany(offers, IsOutOfRange)
  {
    if offers != [] {
      CountersCount(layout, offers[..|offers| - 1]);
    }
  }

  /** `e` describes the durations `ns`: their sum, the least and the greatest of them, and the sketch of all. */
  ghost predicate Describes<L>(e: Exact<L>, ns: seq<nat>) {
    && e.total == TotalOf(ns) && e.sketch.values == multiset(ClampedAll(ns))
    && IsExtreme(e.min, ns, true) && IsExtreme(e.max, ns, false)
  }

  ghost predicate IsExtreme(x: Option<int>, ns: seq<nat>, least: bool) {
    && (x.None? <==> ns == [])
    && (x.Some? ==> x.value in ns && forall n :: n in ns ==> if least then x.value <= n else n <= x.value)
  }

  lemma DescribesOneMore<L>(e: Exact<L>, ns: seq<nat>, o: Offer)
    requires Describes(e, ns) && o.span.Ok?
    ensures Describes(Recorded(e, o), ns + [o.span.ns])
  {
    var n := o.span.ns;
    assert (ns + [n])[..|ns|] == ns;
    assert ClampedAll(ns + [n]) == ClampedAll(ns) + [Clamped(n)];
    hide TotalOf, ClampedAll, Clamped;
  }

  /** The total, the extremes and the sketch are those of the durations that could be measured. */
  lemma {:induction false} FiguresDescribe<L>(layout: L, offers: seq<Offer>)
    ensures Describes(Of(layout, offers), Measured(offers))
  {
    if offers != [] {
      var (front, o) := (offers[..|offers| - 1], offers[|offers| - 1]);
      FiguresDescribe(layout, front);
      if o.span.Ok? {
        DescribesOneMore(Of(layout, front), Measured(front), o);
        hide Describes, Recorded;
      }
    }
  }

  function WellFormed<L>(e: Exact<L>): int {
    e.count - e.negative - e.malformed
  }

  /** `n` values between `lo` and `hi` may add up to `total`. */
  predicate Between(n: int, lo: int, hi: int, total: int) {
    0 <= lo <= hi && lo * n <= total <= hi * n
  }

  lemma BetweenBoth(n: int, lo: int, hi: int, total: int, n': int, lo': int, hi': int, total': int)
    requires n >= 0 && n' >= 0 && Between(n, lo, hi, total) && Between(n', lo', hi', total')
    ensures Between(n + n', if lo <= lo' then lo else lo', if hi >= hi' then hi else hi', total + total')
  {
    var (l, h) := (if lo <= lo' then lo else lo', if hi >= hi' then hi else hi');
    Scale(l, lo, n);
    Scale(l, lo', n');
    Scale(hi, h, n);
    Scale(hi', h, n');
    Distribute(l, n, n');
    Distribute(h, n, n');
  }

  lemma Scale(lo: int, hi: int, n: int)
    requires lo <= hi && n >= 0
    ensures lo * n <= hi * n
  {
  }

  lemma Distribute(x: int, n: int, m: int)
    ensures x * (n + m) == x * n + x * m
  {
  }

  /** What every set of recorded spans satisfies, and merging keeps. */
  ghost predicate Sane<L>(e: Exact<L>) {
    var n := WellFormed(e);
    && n >= 0 && n == |e.sketch.values| && e.outOfRange <= n && e.errors <= e.count
    && (n == 0 <==> e.min.None?) && (n == 0 <==> e.max.None?)
    && (if n == 0 then e.total == 0 else Between(n, e.min.value, e.max.value, e.total))
  }

  lemma SumSane<L>(a: Exact<L>, b: Exact<L>)
    requires Sane(a) && Sane(b)
    ensures Sane(Sum(a, b))
  {
    if WellFormed(a) > 0 && WellFormed(b) > 0 {
      BetweenBoth(WellFormed(a), a.min.value, a.max.value, a.total, WellFormed(b), b.min.value, b.max.value, b.total);
    }
    hide Between;
  }

  lemma OneSane<L>(layout: L, o: Offer)
    ensures Sane(Of(layout, [o]))
  {
    OfOne(layout, o);
  }

  lemma {:induction false} OfSane<L>(layout: L, offers: seq<Offer>)
    ensures Sane(Of(layout, offers))
  {
    if offers != [] {
      var front, o := offers[..|offers| - 1], offers[|offers| - 1];
      OfSane(layout, front);
      OneSane(layout, o);
      OfLayout(layout, front);
      RecordedIsSum(Of(layout, front), o);
      SumSane(Of(layout, front), Of(layout, [o]));
      hide Sane, Recorded, Sum;
    }
  }

  /** The mean over the spans that went into the sum. */
  function Average<L>(e: Exact<L>): Option<real> {
    if WellFormed(e) > 0 then Some(e.total as real / WellFormed(e) as real) else None
  }

  /** The average lies between the extremes, whenever there is one. */
  lemma AverageBetween<L>(e: Exact<L>)
    requires Sane(e)
    ensures Average(e).Some? <==> e.min.Some?
    ensures Average(e).Some? ==> e.min.value as real <= Average(e).value <= e.max.value as real
  {
    var n := WellFormed(e);
    if n > 0 {
      Quotient(e.min.value, e.total, n);
      Quotient(-e.max.value, -e.total, n);
      assert (-e.total) as real / n as real == -(e.total as real / n as real);
    }
  }

  lemma Quotient(lo: int, total: int, n: int)
    requires n > 0 && lo * n <= total
    ensures lo as real <= total as real / n as real
  {
    assert lo as real * n as real == (lo * n) as real;
    assert lo as real == (lo * n) as real / n as real;
  }

  /** While the span count fits in 64 bits the total fits in 128, whatever the durations. */
  lemma {:induction false} TotalFits<L>(layout: L, offers: seq<Offer>)
    requires |offers| <= MAX_U64
    requires forall i :: 0 <= i < |offers| ==> offers[i].span.Ok? ==> offers[i].span.ns < TWO_63
    ensures Of(layout, offers).count == |offers|
    ensures 0 <= Of(layout, offers).total <= |offers| * TWO_63 < TWO_127
  {
    if offers != [] {
      TotalFits(layout, offers[..|offers| - 1]);
    }
  }

  /** The sketch counts a duration as itself within its range, and as the nearer end of it otherwise. */
  lemma ClampedIs(ns: nat)
    ensures MIN_NS < ns <= MAX_NS ==> Clamped(ns) == ns
    ensures ns <= MIN_NS ==> Clamped(ns) == 0
    ensures ns > MAX_NS ==> Clamped(ns) == 3600 * 1_000_000_000
  {
  }
}
