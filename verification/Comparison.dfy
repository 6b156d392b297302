/** Comparing two arms: what is refused, what is marked, when the result can be trusted, and that sides can be swapped. */
module Comparison {
  import opened Text
  import opened DiffRows

  const MATERIAL_COUNT_CHANGE_PCT: real := 1.0

  datatype Level = Scalar | Timing | Tree
  datatype Nesting = Detected | Undetected | NotKnown
  datatype Aggregation = Live | SingleRun | Merged(runs: nat)
  datatype Loss = Loss(dropped: nat, shedBatches: nat, malformed: nat)

  /** Milliseconds throughout. The percentiles are the sketch's, absent from an empty one. */
  datatype Figures = Figures(count: nat, total: real, average: Option<real>, errors: nat, percentiles: Option<seq<real>>)

  datatype Sampled = Sampled(selfTime: Option<real>, percentiles: seq<Option<real>>)

  datatype Arm = Arm(
    collector: string, layout: nat, filter: seq<string>, filterString: string, level: Level, groupKeys: seq<string>,
    aggregation: Aggregation, ingest: Option<Loss>, sampleComplete: bool, capped: bool, nesting: Nesting,
    floor: Option<real>, countFloor: Option<real>, figures: Figures, sampled: Option<Sampled>)

  datatype Allow = Allow(mismatch: bool, lossy: bool, truncated: bool)

  datatype Refusal = LayoutMismatch | FilterMismatch | AsymmetricLoss | BothTruncated

  datatype MarkKind = FilterMark | LossMark | TruncatedMark | LevelMark | GroupKeysMark | CollectorMark | CardinalityMark | NestingMark

  datatype Mark = Mark(kind: MarkKind, overridden: bool)

  datatype Metric = Count | Total | Average | ErrorCount | Estimate(i: nat) | SelfTime | Sample(i: nat)

  /** A row with a difference, or one that only shows what there is. */
  datatype MetricRow =
    | Compared(metric: Metric, row: Row, trustworthy: bool)
    | Absent(metric: Metric, a: Option<real>, b: Option<real>)

  datatype Report = Report(level: Level, trustworthy: bool, rows: seq<MetricRow>, marks: seq<Mark>, sampledOmitted: bool)

  const PERCENTILES: nat := 4

  predicate WellFormed(a: Arm) {
    && (a.figures.percentiles.Some? ==> |a.figures.percentiles.value| == PERCENTILES)
    && (a.sampled.Some? ==> |a.sampled.value.percentiles| == PERCENTILES)
  }

  function LostSpans(a: Arm): Option<bool> {
    match a.ingest
    case None => None
    case Some(l) => Some(l.dropped > 0 || l.shedBatches > 0 || l.malformed > 0)
  }

  function Lower(x: Level, y: Level): Level {
    if x == Scalar || y == Scalar then Scalar else if x == Timing || y == Timing then Timing else Tree
  }

  predicate IsSingleRun(a: Arm) {
    !(a.aggregation.Merged? && a.aggregation.runs > 1)
  }

  function Larger(x: real, y: real): real {
    if x > y then x else y
  }

  predicate CountMoved(a: Arm, b: Arm) {
    var (x, y) := (a.figures.count as real, b.figures.count as real);
    var base := Larger(x, y);
    base != 0.0 && Abs(x - y) / base * 100.0 > MATERIAL_COUNT_CHANGE_PCT
  }

  /** What the comparison is refused for, the first reason counting. */
  function Refused(a: Arm, b: Arm, allow: Allow): Option<Refusal> {
    if a.layout != b.layout then Some(LayoutMismatch)
    else if a.filter != b.filter && !allow.mismatch then Some(FilterMismatch)
    else if LostSpans(a).Some? && LostSpans(b).Some? && LostSpans(a) != LostSpans(b) && !allow.lossy then Some(AsymmetricLoss)
    else if !a.sampleComplete && !b.sampleComplete && !allow.truncated then Some(BothTruncated)
    else None
  }

  function MarkIf(condition: bool, kind: MarkKind, overridden: bool): seq<Mark> {
    if condition then [Mark(kind, overridden)] else []
  }

  function Marks(a: Arm, b: Arm): seq<Mark> {
    MarkIf(a.filter != b.filter || a.filterString != b.filterString, FilterMark, a.filter != b.filter)
    + MarkIf(!(LostSpans(a) == Some(false) && LostSpans(b) == Some(false)), LossMark,
             LostSpans(a).Some? && LostSpans(b).Some? && LostSpans(a) != LostSpans(b))
    + MarkIf(!a.sampleComplete || !b.sampleComplete, TruncatedMark, !a.sampleComplete && !b.sampleComplete)
    + MarkIf(a.level != b.level, LevelMark, false)
    + MarkIf(a.groupKeys != b.groupKeys, GroupKeysMark, false)
    + MarkIf(a.collector != b.collector, CollectorMark, false)
    + MarkIf(a.capped || b.capped, CardinalityMark, false)
    + MarkIf(a.nesting != Undetected || b.nesting != Undetected, NestingMark, false)
  }

  /** About the labels, not about whether the numbers are sound. */
  predicate IsInformational(m: Mark) {
    m.kind == CollectorMark || (m.kind == FilterMark && !m.overridden)
  }

  function AverageRows(a: Arm, b: Arm, floor: Option<real>): seq<MetricRow> {
    var (x, y) := (a.figures.average, b.figures.average);
    if x.None? || y.None? then []
    else if CountMoved(a, b) then [Absent(Average, x, y)]
    else [Compared(Average, ExactRow(x.value, y.value, floor), true)]
  }

  function EstimateRow(a: Arm, b: Arm, i: nat, floor: Option<real>): MetricRow
    requires WellFormed(a) && WellFormed(b) && i < PERCENTILES
  {
    var (p, q) := (a.figures.percentiles, b.figures.percentiles);
    if p.Some? && q.Some? then Compared(Estimate(i), EstimatedRow(p.value[i], q.value[i], floor), true)
    else Absent(Estimate(i), None, None)
  }

  function SelfRow(a: Arm, b: Arm, p: Sampled, q: Sampled, floor: Option<real>): MetricRow {
    if Lower(a.level, b.level) == Tree && p.selfTime.Some? && q.selfTime.Some?
    then Compared(SelfTime, ExactRow(p.selfTime.value, q.selfTime.value, floor), a.sampleComplete && b.sampleComplete)
    else Absent(SelfTime, None, None)
  }

  function SampleRows(a: Arm, b: Arm, p: Sampled, q: Sampled, i: nat, floor: Option<real>): seq<MetricRow>
    requires |p.percentiles| == PERCENTILES && |q.percentiles| == PERCENTILES && i < PERCENTILES
  {
    var (x, y) := (p.percentiles[i], q.percentiles[i]);
    if x.Some? && y.Some? then [Compared(Sample(i), ExactRow(x.value, y.value, floor), a.sampleComplete && b.sampleComplete)] else []
  }

  function SampledPart(a: Arm, b: Arm, p: Sampled, q: Sampled, floor: Option<real>): seq<MetricRow>
    requires |p.percentiles| == PERCENTILES && |q.percentiles| == PERCENTILES
  {
    [SelfRow(a, b, p, q, floor)] + SampleRows(a, b, p, q, 0, floor) + SampleRows(a, b, p, q, 1, floor)
    + SampleRows(a, b, p, q, 2, floor) + SampleRows(a, b, p, q, 3, floor)
  }

  function TotalRows(a: Arm, b: Arm): seq<MetricRow> {
    [Compared(Count, ExactRow(a.figures.count as real, b.figures.count as real, BindingFloor(a.countFloor, b.countFloor)), true),
     Compared(Total, ExactRow(a.figures.total, b.figures.total, BindingFloor(a.floor, b.floor)),
              a.nesting == Undetected && b.nesting == Undetected)]
  }

  function EstimateRows(a: Arm, b: Arm): seq<MetricRow>
    requires WellFormed(a) && WellFormed(b)
  {
    var floor := BindingFloor(a.floor, b.floor);
    [Compared(ErrorCount, ExactRow(a.figures.errors as real, b.figures.errors as real, BindingFloor(a.countFloor, b.countFloor)), true),
     EstimateRow(a, b, 0, floor), EstimateRow(a, b, 1, floor), EstimateRow(a, b, 2, floor), EstimateRow(a, b, 3, floor)]
  }

  function SampledRows(a: Arm, b: Arm): seq<MetricRow>
    requires WellFormed(a) && WellFormed(b)
  {
    if a.sampled.None? || b.sampled.None? then []
    else SampledPart(a, b, a.sampled.value, b.sampled.value, BindingFloor(a.floor, b.floor))
  }

  function Rows(a: Arm, b: Arm): seq<MetricRow>
    requires WellFormed(a) && WellFormed(b)
  {
    TotalRows(a, b) + AverageRows(a, b, BindingFloor(a.floor, b.floor)) + EstimateRows(a, b) + SampledRows(a, b)
  }

  function Diff(a: Arm, b: Arm, allow: Allow): Result<Report, Refusal>
    requires WellFormed(a) && WellFormed(b)
  {
    match Refused(a, b, allow)
    case Some(e) => Failure(e)
    case None =>
      var marks := Marks(a, b);
      Success(Report(
        Lower(a.level, b.level),
        (forall m :: m in marks ==> IsInformational(m)) && !IsSingleRun(a) && !IsSingleRun(b),
        Rows(a, b), marks, a.sampled.None? || b.sampled.None?))
  }

  // ---- What trust means --------------------------------------------------------------------------

  /** Nothing about the two arms makes a number below unsafe to act on. */
  predicate Sound(a: Arm, b: Arm) {
    && a.filter == b.filter && a.level == b.level && a.groupKeys == b.groupKeys
    && LostSpans(a) == Some(false) && LostSpans(b) == Some(false)
    && a.sampleComplete && b.sampleComplete && !a.capped && !b.capped
    && a.nesting == Undetected && b.nesting == Undetected
    && !IsSingleRun(a) && !IsSingleRun(b)
  }

  lemma MarksListed(a: Arm, b: Arm, m: Mark)
    ensures m in Marks(a, b) <==>
      || (m == Mark(FilterMark, a.filter != b.filter) && (a.filter != b.filter || a.filterString != b.filterString))
      || (m == Mark(LossMark, LostSpans(a).Some? && LostSpans(b).Some? && LostSpans(a) != LostSpans(b))
          && !(LostSpans(a) == Some(false) && LostSpans(b) == Some(false)))
      || (m == Mark(TruncatedMark, !a.sampleComplete && !b.sampleComplete) && !(a.sampleComplete && b.sampleComplete))
      || (m == Mark(LevelMark, false) && a.level != b.level)
      || (m == Mark(GroupKeysMark, false) && a.groupKeys != b.groupKeys)
      || (m == Mark(CollectorMark, false) && a.collector != b.collector)
      || (m == Mark(CardinalityMark, false) && (a.capped || b.capped))
      || (m == Mark(NestingMark, false) && !(a.nesting == Undetected && b.nesting == Undetected))
  {
  }

  /** A comparison is trusted exactly when its arms measured one population, completely, several times each. */
  lemma TrustedExactlyWhenSound(a: Arm, b: Arm, allow: Allow)
    requires WellFormed(a) && WellFormed(b) && Diff(a, b, allow).Success?
    ensures Diff(a, b, allow).value.trustworthy <==> Sound(a, b)
  {
    var marks := Marks(a, b);
    hide Marks, Rows, Refused, LostSpans;
    forall m
      ensures m in marks ==> m.kind == FilterMark || m.kind == CollectorMark || !IsInformational(m)
    {
      MarksListed(a, b, m);
    }
    MarksListed(a, b, Mark(FilterMark, true));
    MarksListed(a, b, Mark(LossMark, LostSpans(a).Some? && LostSpans(b).Some? && LostSpans(a) != LostSpans(b)));
    MarksListed(a, b, Mark(TruncatedMark, !a.sampleComplete && !b.sampleComplete));
    MarksListed(a, b, Mark(LevelMark, false));
    MarksListed(a, b, Mark(GroupKeysMark, false));
    MarksListed(a, b, Mark(CardinalityMark, false));
    MarksListed(a, b, Mark(NestingMark, false));
    if Sound(a, b) {
      forall m | m in marks
        ensures IsInformational(m)
      {
        MarksListed(a, b, m);
      }
    }
  }

  // ---- Swapping the sides ------------------------------------------------------------------------

  predicate RowSwapped(r: MetricRow, s: MetricRow) {
    match (r, s)
    case (Compared(m, x, t), Compared(n, y, u)) => m == n && t == u && Mirrored(x, y)
    case (Absent(m, x, y), Absent(n, u, v)) => m == n && x == v && y == u
    case _ => false
  }

  ghost predicate RowsSwapped(rs: seq<MetricRow>, ss: seq<MetricRow>) {
    |rs| == |ss| && forall i :: 0 <= i < |rs| ==> RowSwapped(rs[i], ss[i])
  }

  lemma ConcatSwapped(r1: seq<MetricRow>, s1: seq<MetricRow>, r2: seq<MetricRow>, s2: seq<MetricRow>)
    requires RowsSwapped(r1, s1) && RowsSwapped(r2, s2)
    ensures RowsSwapped(r1 + r2, s1 + s2)
  {
  }

  lemma ExactSwapped(x: real, y: real, f: Option<real>, g: Option<real>)
    ensures Mirrored(ExactRow(x, y, BindingFloor(f, g)), ExactRow(y, x, BindingFloor(g, f)))
    ensures Mirrored(EstimatedRow(x, y, BindingFloor(f, g)), EstimatedRow(y, x, BindingFloor(g, f)))
  {
    RowsAreSymmetric(x, y, f, g);
  }

  lemma CountMovedSymmetric(a: Arm, b: Arm)
    ensures CountMoved(a, b) == CountMoved(b, a)
  {
    var (x, y) := (a.figures.count as real, b.figures.count as real);
    assert Abs(x - y) == Abs(y - x) && Larger(x, y) == Larger(y, x);
  }

  lemma AverageSwapped(a: Arm, b: Arm)
    ensures RowsSwapped(AverageRows(a, b, BindingFloor(a.floor, b.floor)), AverageRows(b, a, BindingFloor(b.floor, a.floor)))
  {
    CountMovedSymmetric(a, b);
    var (x, y) := (a.figures.average, b.figures.average);
    if x.Some? && y.Some? {
      ExactSwapped(x.value, y.value, a.floor, b.floor);
    }
    hide CountMoved, ExactRow, BindingFloor, Mirrored;
  }

  lemma EstimateSwapped(a: Arm, b: Arm, i: nat)
    requires WellFormed(a) && WellFormed(b) && i < PERCENTILES
    ensures RowSwapped(EstimateRow(a, b, i, BindingFloor(a.floor, b.floor)), EstimateRow(b, a, i, BindingFloor(b.floor, a.floor)))
  {
    var (p, q) := (a.figures.percentiles, b.figures.percentiles);
    if p.Some? && q.Some? {
      ExactSwapped(p.value[i], q.value[i], a.floor, b.floor);
    }
    hide EstimatedRow, BindingFloor, Mirrored;
  }

  lemma SampleSwapped(a: Arm, b: Arm, i: nat)
    requires WellFormed(a) && WellFormed(b) && a.sampled.Some? && b.sampled.Some? && i < PERCENTILES
    ensures var (p, q) := (a.sampled.value, b.sampled.value);
      RowsSwapped(SampleRows(a, b, p, q, i, BindingFloor(a.floor, b.floor)), SampleRows(b, a, q, p, i, BindingFloor(b.floor, a.floor)))
  {
    var (x, y) := (a.sampled.value.percentiles[i], b.sampled.value.percentiles[i]);
    if x.Some? && y.Some? {
      ExactSwapped(x.value, y.value, a.floor, b.floor);
    }
    hide ExactRow, BindingFloor, Mirrored;
  }

  lemma SelfSwapped(a: Arm, b: Arm)
    requires a.sampled.Some? && b.sampled.Some?
    ensures var (p, q) := (a.sampled.value, b.sampled.value);
      RowSwapped(SelfRow(a, b, p, q, BindingFloor(a.floor, b.floor)), SelfRow(b, a, q, p, BindingFloor(b.floor, a.floor)))
  {
    var (x, y) := (a.sampled.value.selfTime, b.sampled.value.selfTime);
    if x.Some? && y.Some? {
      ExactSwapped(x.value, y.value, a.floor, b.floor);
    }
    hide ExactRow, BindingFloor, Mirrored;
  }

  lemma SampledPartSwapped(a: Arm, b: Arm)
    requires WellFormed(a) && WellFormed(b) && a.sampled.Some? && b.sampled.Some?
    ensures var (p, q) := (a.sampled.value, b.sampled.value);
      RowsSwapped(SampledPart(a, b, p, q, BindingFloor(a.floor, b.floor)), SampledPart(b, a, q, p, BindingFloor(b.floor, a.floor)))
  {
    SelfSwapped(a, b);
    SampleSwapped(a, b, 0);
    SampleSwapped(a, b, 1);
    SampleSwapped(a, b, 2);
    SampleSwapped(a, b, 3);
    hide SelfRow, SampleRows, RowSwapped;
  }

  lemma TotalsSwapped(a: Arm, b: Arm)
    ensures RowsSwapped(TotalRows(a, b), TotalRows(b, a))
  {
    ExactSwapped(a.figures.count as real, b.figures.count as real, a.countFloor, b.countFloor);
    ExactSwapped(a.figures.total, b.figures.total, a.floor, b.floor);
    hide Mirrored, ExactRow, EstimatedRow, BindingFloor;
  }

  lemma EstimatesSwapped(a: Arm, b: Arm)
    requires WellFormed(a) && WellFormed(b)
    ensures RowsSwapped(EstimateRows(a, b), EstimateRows(b, a))
  {
    ExactSwapped(a.figures.errors as real, b.figures.errors as real, a.countFloor, b.countFloor);
    EstimateSwapped(a, b, 0);
    EstimateSwapped(a, b, 1);
    EstimateSwapped(a, b, 2);
    EstimateSwapped(a, b, 3);
    hide Mirrored, ExactRow, EstimatedRow, BindingFloor, EstimateRow;
  }

  lemma RowsOfSwapped(a: Arm, b: Arm)
    requires WellFormed(a) && WellFormed(b)
    ensures RowsSwapped(Rows(a, b), Rows(b, a))
  {
    TotalsSwapped(a, b);
    AverageSwapped(a, b);
    EstimatesSwapped(a, b);
    if a.sampled.Some? && b.sampled.Some? {
      SampledPartSwapped(a, b);
    }
    assert RowsSwapped(SampledRows(a, b), SampledRows(b, a));
    hide RowsSwapped, BindingFloor, TotalRows, AverageRows, EstimateRows, SampledRows;
    var (f, g) := (BindingFloor(a.floor, b.floor), BindingFloor(b.floor, a.floor));
    ConcatSwapped(TotalRows(a, b), TotalRows(b, a), AverageRows(a, b, f), AverageRows(b, a, g));
    ConcatSwapped(TotalRows(a, b) + AverageRows(a, b, f), TotalRows(b, a) + AverageRows(b, a, g), EstimateRows(a, b), EstimateRows(b, a));
    ConcatSwapped(TotalRows(a, b) + AverageRows(a, b, f) + EstimateRows(a, b), TotalRows(b, a) + AverageRows(b, a, g) + EstimateRows(b, a),
                  SampledRows(a, b), SampledRows(b, a));
  }

  /**
   Swapping the arms gives the same refusal or the same report: level, trust and marks alike, and row
   by row the same thresholds and suppression with the sides exchanged and the difference negated.
   */
  lemma DiffIsSymmetric(a: Arm, b: Arm, allow: Allow)
    requires WellFormed(a) && WellFormed(b)
    ensures match (Diff(a, b, allow), Diff(b, a, allow))
      case (Failure(e), Failure(f)) => e == f
      case (Success(r), Success(s)) =>
        && r.level == s.level && r.trustworthy == s.trustworthy && r.marks == s.marks && r.sampledOmitted == s.sampledOmitted
        && RowsSwapped(r.rows, s.rows)
      case _ => false
  {
    assert Refused(a, b, allow) == Refused(b, a, allow);
    assert Marks(a, b) == Marks(b, a);
    RowsOfSwapped(a, b);
    hide Refused, Marks, Rows, RowsSwapped;
  }

  // ---- What is refused, and what a report shows --------------------------------------------------

  /** The arm is known to have lost spans; known not to have. */
  predicate KnownToLose(a: Arm) {
    a.ingest.Some? && (a.ingest.value.dropped > 0 || a.ingest.value.shedBatches > 0 || a.ingest.value.malformed > 0)
  }

  predicate KnownNotToLose(a: Arm) {
    a.ingest == Some(Loss(0, 0, 0))
  }

  /** There is a report unless the arms cannot be compared at all, or differ in a way that was not allowed for. */
  lemma RefusedWhen(a: Arm, b: Arm, allow: Allow)
    requires WellFormed(a) && WellFormed(b)
    ensures
      Diff(a, b, allow) ==
        if a.layout != b.layout then Failure(LayoutMismatch)
        else if !allow.mismatch && a.filter != b.filter then Failure(FilterMismatch)
        else if !allow.lossy && ((KnownToLose(a) && KnownNotToLose(b)) || (KnownNotToLose(a) && KnownToLose(b))) then
          Failure(AsymmetricLoss)
        else if !allow.truncated && !a.sampleComplete && !b.sampleComplete then Failure(BothTruncated)
        else Success(Diff(a, b, Allow(true, true, true)).value)
  {
    hide Marks, Rows;
  }

  lemma SoundSpelled(a: Arm, b: Arm)
    ensures Sound(a, b) ==> KnownNotToLose(a) && KnownNotToLose(b)
    ensures Sound(a, b) ==> a.aggregation.Merged? && a.aggregation.runs >= 2 && b.aggregation.Merged? && b.aggregation.runs >= 2
  {
  }

  /** The level of a report is the lower of the two. */
  lemma LevelIsLower(a: Arm, b: Arm)
    ensures var l := Lower(a.level, b.level);
      && (l == Tree <==> a.level == Tree && b.level == Tree) && (l == Scalar <==> a.level == Scalar || b.level == Scalar)
  {
  }

  function Gap(m: nat, n: nat): nat {
    if m > n then m - n else n - m
  }

  function Most(m: nat, n: nat): nat {
    if m > n then m else n
  }

  lemma AsReals(m: nat, n: nat)
    ensures Abs(m as real - n as real) == Gap(m, n) as real && Larger(m as real, n as real) == Most(m, n) as real
  {
  }

  lemma HundredTimes(m: nat, n: nat)
    ensures 100.0 * (m as real) > n as real <==> 100 * m > n
  {
    assert (100 * m) as real == 100.0 * (m as real);
  }

  /** The count has moved if it differs by more than a hundredth of the larger. */
  lemma CountMovedWhen(a: Arm, b: Arm)
    ensures CountMoved(a, b) <==> 100 * Gap(a.figures.count, b.figures.count) > Most(a.figures.count, b.figures.count)
  {
    var (m, n) := (a.figures.count, b.figures.count);
    var (gap, most) := (Gap(m, n) as real, Most(m, n) as real);
    AsReals(m, n);
    HundredTimes(Gap(m, n), Most(m, n));
    MostIsMost(m, n);
    assert CountMoved(a, b) <==> most != 0.0 && gap / most * 100.0 > 1.0;
    hide CountMoved, Gap, Most, Abs, Larger;
    if most != 0.0 {
      Hundredth(gap, most);
    }
  }

  lemma MostIsMost(m: nat, n: nat)
    ensures Gap(m, n) <= Most(m, n)
  {
  }

  lemma Hundredth(gap: real, most: real)
    requires most > 0.0
    ensures gap / most * 100.0 > 1.0 <==> 100.0 * gap > most
  {
    Quotient(gap, most, gap / most);
  }

  lemma Quotient(gap: real, most: real, q: real)
    requires most > 0.0 && q * most == gap
    ensures q * 100.0 > 1.0 <==> 100.0 * gap > most
  {
    if q * 100.0 > 1.0 {
      assert (q * 100.0 - 1.0) * most > 0.0;
    } else {
      assert (1.0 - q * 100.0) * most >= 0.0;
    }
  }

  /** What an arm has to show under a metric. */
  function Shown(a: Arm, m: Metric): Option<real>
    requires WellFormed(a)
  {
    match m
    case Count => Some(a.figures.count as real)
    case Total => Some(a.figures.total)
    case Average => a.figures.average
    case ErrorCount => Some(a.figures.errors as real)
    case Estimate(i) => if a.figures.percentiles.Some? && i < PERCENTILES then Some(a.figures.percentiles.value[i]) else None
    case SelfTime => if a.sampled.Some? then a.sampled.value.selfTime else None
    case Sample(i) => if a.sampled.Some? && i < PERCENTILES then a.sampled.value.percentiles[i] else None
  }

  /** The two sides of a metric are compared if both are there, averages only over like counts, self times only over whole trees. */
  predicate IsCompared(a: Arm, b: Arm, m: Metric)
    requires WellFormed(a) && WellFormed(b)
  {
    && Shown(a, m).Some? && Shown(b, m).Some?
    && (m == Average ==> !CountMoved(a, b))
    && (m == SelfTime ==> a.level == Tree && b.level == Tree)
  }

  /** Sums are doubtful where spans may nest, and what comes from the sample where that was cut short. */
  predicate RowTrusted(a: Arm, b: Arm, m: Metric) {
    match m
    case Total => a.nesting == Undetected && b.nesting == Undetected
    case SelfTime => a.sampleComplete && b.sampleComplete
    case Sample(_) => a.sampleComplete && b.sampleComplete
    case _ => true
  }

  /** The row the metric's two sides make, under the floor that is the metric's own. */
  function RowOf(a: Arm, b: Arm, m: Metric, x: real, y: real): Row {
    match m
    case Count => ExactRow(x, y, BindingFloor(a.countFloor, b.countFloor))
    case ErrorCount => ExactRow(x, y, BindingFloor(a.countFloor, b.countFloor))
    case Estimate(_) => EstimatedRow(x, y, BindingFloor(a.floor, b.floor))
    case _ => ExactRow(x, y, BindingFloor(a.floor, b.floor))
  }

  ghost predicate RowIsRight(a: Arm, b: Arm, r: MetricRow)
    requires WellFormed(a) && WellFormed(b)
  {
    match r
    case Compared(m, row, t) =>
      IsCompared(a, b, m) && row == RowOf(a, b, m, Shown(a, m).value, Shown(b, m).value) && t == RowTrusted(a, b, m)
    case Absent(m, x, y) => !IsCompared(a, b, m) && (m == Average ==> x == Shown(a, m) && y == Shown(b, m))
  }

  lemma TotalsRight(a: Arm, b: Arm)
    requires WellFormed(a) && WellFormed(b)
    ensures forall r :: r in TotalRows(a, b) || r in AverageRows(a, b, BindingFloor(a.floor, b.floor)) ==> RowIsRight(a, b, r)
  {
    hide ExactRow, EstimatedRow, BindingFloor, CountMoved;
  }

  lemma EstimatesRight(a: Arm, b: Arm)
    requires WellFormed(a) && WellFormed(b)
    ensures forall r :: r in EstimateRows(a, b) ==> RowIsRight(a, b, r)
  {
    hide ExactRow, EstimatedRow, BindingFloor, CountMoved;
  }

  lemma SampledRight(a: Arm, b: Arm)
    requires WellFormed(a) && WellFormed(b)
    ensures forall r :: r in SampledRows(a, b) ==> RowIsRight(a, b, r)
  {
    hide ExactRow, EstimatedRow, BindingFloor, CountMoved;
  }

  /** Every row of a report shows what both arms have, the first arm's side first, compared as the metric asks for. */
  lemma RowsShowTheArms(a: Arm, b: Arm, r: MetricRow)
    requires WellFormed(a) && WellFormed(b) && r in Rows(a, b)
    ensures RowIsRight(a, b, r)
  {
    TotalsRight(a, b);
    EstimatesRight(a, b);
    SampledRight(a, b);
    hide TotalRows, AverageRows, EstimateRows, SampledRows, RowIsRight, BindingFloor;
  }

  lemma SampleListed(a: Arm, b: Arm, i: nat, r: MetricRow)
    requires WellFormed(a) && WellFormed(b) && a.sampled.Some? && b.sampled.Some? && i < PERCENTILES
    requires r in SampleRows(a, b, a.sampled.value, b.sampled.value, i, BindingFloor(a.floor, b.floor))
    ensures r in SampledRows(a, b)
  {
    hide SampleRows, SelfRow, BindingFloor;
    assert i == 0 || i == 1 || i == 2 || i == 3;
  }

  lemma PartHas(a: Arm, b: Arm, m: Metric)
    requires WellFormed(a) && WellFormed(b) && IsCompared(a, b, m)
    ensures var r := Compared(m, RowOf(a, b, m, Shown(a, m).value, Shown(b, m).value), RowTrusted(a, b, m));
      || r in TotalRows(a, b) || r in AverageRows(a, b, BindingFloor(a.floor, b.floor)) || r in EstimateRows(a, b)
      || r in SampledRows(a, b)
  {
    var floor := BindingFloor(a.floor, b.floor);
    var r := Compared(m, RowOf(a, b, m, Shown(a, m).value, Shown(b, m).value), RowTrusted(a, b, m));
    hide ExactRow, EstimatedRow, BindingFloor, CountMoved;
    match m {
      case Count => assert r == TotalRows(a, b)[0];
      case Total => assert r == TotalRows(a, b)[1];
      case Average => assert r == AverageRows(a, b, floor)[0];
      case ErrorCount => assert r == EstimateRows(a, b)[0];
      case Estimate(i) => assert r == EstimateRows(a, b)[i + 1];
      case SelfTime => assert r == SampledRows(a, b)[0];
      case Sample(i) =>
        assert r == SampleRows(a, b, a.sampled.value, b.sampled.value, i, floor)[0];
        SampleListed(a, b, i, r);
    }
  }

  /** And whatever can be compared has its row. */
  lemma NothingMissing(a: Arm, b: Arm, m: Metric)
    requires WellFormed(a) && WellFormed(b) && IsCompared(a, b, m)
    ensures Compared(m, RowOf(a, b, m, Shown(a, m).value, Shown(b, m).value), RowTrusted(a, b, m)) in Rows(a, b)
  {
    PartHas(a, b, m);
    hide TotalRows, AverageRows, EstimateRows, SampledRows, RowOf, RowTrusted, BindingFloor;
  }

  /** A report says that sampled figures were left out exactly when it has no row for them. */
  lemma OmittedWhen(a: Arm, b: Arm, allow: Allow)
    requires WellFormed(a) && WellFormed(b) && Diff(a, b, allow).Success?
    ensures var r := Diff(a, b, allow).value;
      r.sampledOmitted <==> forall row :: row in r.rows ==> !row.metric.SelfTime? && !row.metric.Sample?
  {
    var r := Diff(a, b, allow).value;
    if a.sampled.Some? && b.sampled.Some? {
      var row := SelfRow(a, b, a.sampled.value, b.sampled.value, BindingFloor(a.floor, b.floor));
      assert row in SampledRows(a, b) by {
        assert SampledRows(a, b)[0] == row;
      }
      assert row in r.rows;
    } else {
      assert SampledRows(a, b) == [];
      forall row | row in r.rows
        ensures !row.metric.SelfTime? && !row.metric.Sample?
      {
        assert row in TotalRows(a, b) || row in AverageRows(a, b, BindingFloor(a.floor, b.floor)) || row in EstimateRows(a, b);
      }
    }
  }
}
