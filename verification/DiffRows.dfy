/**
 One row of a comparison: when a difference is reported and when it is held back.

 A percentile read from a sketch is within one part in a hundred of the truth. The threshold under
 which a difference of two such readings is held back turns out to be exact: it holds back a
 difference precisely when the truths behind the readings could go the other way.
 */
module DiffRows {
  import opened Text

  const ALPHA: real := 0.01

  function Abs(x: real): real {
    if x < 0.0 then -x else x
  }

  datatype Basis = Unknown | RunToRun | Binding | MeasurementResolution

  datatype Row = Row(
    a: real, b: real, delta: real, deltaPct: Option<real>, thresholdPct: Option<real>, thresholdAbs: Option<real>,
    basis: Basis, errorBoundPct: Option<real>, suppressed: bool)

  function Finish(a: real, b: real, thresholdPct: Option<real>, basis: Basis): Row {
    var delta, mean := b - a, Abs(a + b) / 2.0;
    var thresholdAbs := match thresholdPct case None => None case Some(p) => Some(p / 100.0 * mean);
    Row(
      a, b, delta, if a != 0.0 then Some(delta / Abs(a) * 100.0) else None, thresholdPct, thresholdAbs,
      if thresholdPct.None? then Unknown else basis, None, thresholdAbs.Some? && Abs(delta) <= thresholdAbs.value)
  }

  /** A metric without measurement error: only run-to-run variance can hold it back. */
  function ExactRow(a: real, b: real, floorPct: Option<real>): Row {
    Finish(a, b, floorPct, RunToRun)
  }

  const RESOLUTION_PCT: real := 2.0 * ALPHA * 100.0

  /** At least the sketch's own resolution, and the run-to-run floor if that is known and larger. */
  function DecidingPct(floorPct: Option<real>): (pct: real)
    ensures pct >= RESOLUTION_PCT
  {
    if floorPct.Some? && floorPct.value > RESOLUTION_PCT then floorPct.value else RESOLUTION_PCT
  }

  /** A percentile. */
  function EstimatedRow(a: real, b: real, floorPct: Option<real>): Row {
    var row := Finish(a, b, Some(DecidingPct(floorPct)), if floorPct.Some? then Binding else MeasurementResolution);
    row.(errorBoundPct := if Abs(a - b) > 0.0 then Some(ALPHA * Abs(a + b) / Abs(a - b) * 100.0) else None)
  }

  /** The noisier side's floor; unknown as soon as either side's is. */
  function BindingFloor(a: Option<real>, b: Option<real>): Option<real> {
    if a.None? || b.None? then None else if a.value > b.value then a else b
  }

  /** The sketch's own resolution is what decides. */
  predicate ResolutionBinds(floorPct: Option<real>) {
    floorPct.None? || floorPct.value <= RESOLUTION_PCT
  }

  /** `truth` may be behind the reading `x`. */
  ghost predicate Behind(truth: real, x: real) {
    truth >= 0.0 && Abs(x - truth) <= ALPHA * truth
  }

  /** Whatever the truths behind the two readings, they differ, and in the direction the readings do. */
  ghost predicate DirectionKnown(a: real, b: real) {
    && a != b
    && forall x, y :: Behind(x, a) && Behind(y, b) ==> x != y && (x < y <==> a < b)
  }

  /** The largest truth behind one reading and the smallest behind the other. */
  lemma Extremes(lo: real, hi: real)
    requires 0.0 <= lo && 0.0 <= hi
    ensures Behind(lo / 0.99, lo) && Behind(hi / 1.01, hi)
  {
    var x, y := lo / 0.99, hi / 1.01;
    assert x * 0.99 == lo && y * 1.01 == hi;
    assert ALPHA * x == 0.01 * x && ALPHA * y == 0.01 * y;
  }

  /** A reported difference always has the direction of the true one, whatever the floor. */
  lemma ReportedMeansReal(a: real, b: real, floorPct: Option<real>)
    requires a >= 0.0 && b >= 0.0 && !EstimatedRow(a, b, floorPct).suppressed
    ensures DirectionKnown(a, b)
  {
    AtLeast(DecidingPct(floorPct), RESOLUTION_PCT, a + b);
    FarEnoughIsCertain(a, b);
  }

  /** Readings further apart than the resolution cannot have the same truth, or truths the other way round. */
  lemma FarEnoughIsCertain(a: real, b: real)
    requires a >= 0.0 && b >= 0.0 && Abs(b - a) > 2.0 / 100.0 * ((a + b) / 2.0)
    ensures DirectionKnown(a, b)
  {
    forall x, y | Behind(x, a) && Behind(y, b)
      ensures x != y && (x < y <==> a < b)
    {
      assert ALPHA * x == 0.01 * x && ALPHA * y == 0.01 * y;
    }
  }

  lemma AtLeast(p: real, q: real, sum: real)
    requires p >= q && sum >= 0.0
    ensures p / 100.0 * (sum / 2.0) >= q / 100.0 * (sum / 2.0)
  {
    assert (p - q) / 100.0 * (sum / 2.0) >= 0.0;
  }

  /**
   Where the sketch's resolution decides, a difference is reported exactly when its direction is
   certain: nothing certain is held back, and nothing uncertain is reported.
   */
  lemma ReportedExactlyWhenCertain(a: real, b: real, floorPct: Option<real>)
    requires a >= 0.0 && b >= 0.0 && ResolutionBinds(floorPct)
    ensures !EstimatedRow(a, b, floorPct).suppressed <==> DirectionKnown(a, b)
  {
    if !EstimatedRow(a, b, floorPct).suppressed {
      ReportedMeansReal(a, b, floorPct);
    } else if a < b {
      Extremes(a, b);
      var x, y := a / 0.99, b / 1.01;
      assert Behind(x, a) && Behind(y, b) && y <= x;
    } else if b < a {
      Extremes(b, a);
      var x, y := a / 1.01, b / 0.99;
      assert Behind(x, a) && Behind(y, b) && x <= y;
    }
  }

  /**
   The printed error bound decides, whatever the floor: a difference is held back exactly when the bound
   reaches 100% divided by how many times larger than the resolution the deciding percentage is.
   */
  lemma ErrorBoundDecides(a: real, b: real, floorPct: Option<real>)
    requires a != b
    ensures var row := EstimatedRow(a, b, floorPct);
      row.errorBoundPct.Some? && (row.suppressed <==> row.errorBoundPct.value >= 100.0 * RESOLUTION_PCT / DecidingPct(floorPct))
  {
    var (d, s, pct) := (Abs(a - b), Abs(a + b), DecidingPct(floorPct));
    assert Abs(b - a) == d;
    Ratio(ALPHA * s, d, RESOLUTION_PCT, pct);
    Halves(pct, s);
  }

  lemma Halves(pct: real, s: real)
    ensures pct / 100.0 * (s / 2.0) * RESOLUTION_PCT == ALPHA * s * pct
  {
    assert pct / 100.0 * (s / 2.0) * 2.0 == pct / 100.0 * s == pct * s / 100.0;
    assert ALPHA * s * pct == 0.01 * (s * pct);
  }

  lemma Ratio(s: real, d: real, r: real, pct: real)
    requires d > 0.0 && r > 0.0 && pct > 0.0
    ensures s / d * 100.0 >= 100.0 * r / pct <==> s * pct >= r * d
  {
    var (x, y) := (s / d, r / pct);
    assert x * d == s && y * pct == r && 100.0 * r / pct == 100.0 * y;
    assert s * pct == x * (d * pct) && r * d == y * (d * pct);
    Compare(x, y, d * pct);
  }

  lemma Compare(x: real, y: real, k: real)
    requires k > 0.0
    ensures x >= y <==> x * k >= y * k
  {
    if x >= y { assert (x - y) * k >= 0.0; } else { assert (y - x) * k > 0.0; }
  }

  /** Where the resolution decides, that is 100%: held back exactly when the error bar is as wide as the difference. */
  lemma ErrorBoundTellsSuppression(a: real, b: real, floorPct: Option<real>)
    requires a != b && ResolutionBinds(floorPct)
    ensures var row := EstimatedRow(a, b, floorPct);
      row.errorBoundPct.Some? && (row.suppressed <==> row.errorBoundPct.value >= 100.0)
  {
    ErrorBoundDecides(a, b, floorPct);
  }

  /** With a larger floor, differences are held back that are certain: exactly those whose error bound lies between. */
  lemma FloorHoldsBackMore(a: real, b: real, floorPct: Option<real>)
    requires a >= 0.0 && b >= 0.0 && a != b
    ensures var row := EstimatedRow(a, b, floorPct);
      row.suppressed && DirectionKnown(a, b) <==>
        100.0 * RESOLUTION_PCT / DecidingPct(floorPct) <= row.errorBoundPct.value < 100.0
  {
    ErrorBoundDecides(a, b, floorPct);
    ErrorBoundTellsSuppression(a, b, None);
    ReportedExactlyWhenCertain(a, b, None);
  }

  /** As here: two readings a tenth apart, under a floor of a fifth. */
  lemma FloorHoldsBackACertainOne()
    ensures EstimatedRow(100.0, 110.0, Some(20.0)).suppressed && DirectionKnown(100.0, 110.0)
  {
    FloorHoldsBackMore(100.0, 110.0, Some(20.0));
  }

  // ---- What a row prints -------------------------------------------------------------------------

  /** The difference takes the one side to the other, in itself and as a percentage of the first. */
  ghost predicate LeadsFrom(row: Row, a: real, b: real) {
    && row.a == a && row.b == b && row.b == row.a + row.delta
    && (row.deltaPct.Some? <==> a != 0.0)
    && (a > 0.0 ==> row.b == row.a * (1.0 + row.deltaPct.value / 100.0))
    && (a < 0.0 ==> row.b == row.a * (1.0 - row.deltaPct.value / 100.0))
  }

  lemma PctOf(d: real, size: real)
    requires size > 0.0
    ensures size * (1.0 + d / size * 100.0 / 100.0) == size + d
    ensures -size * (1.0 - d / size * 100.0 / 100.0) == -size + d
  {
    var q := d / size;
    assert q * size == d && q * 100.0 / 100.0 == q;
    assert size * (1.0 + q) == size + size * q;
  }

  lemma FinishLeads(a: real, b: real, pct: Option<real>, basis: Basis)
    ensures LeadsFrom(Finish(a, b, pct, basis), a, b)
  {
    if a != 0.0 { PctOf(b - a, Abs(a)); }
  }

  lemma DeltaLeads(a: real, b: real, floorPct: Option<real>)
    ensures LeadsFrom(ExactRow(a, b, floorPct), a, b) && LeadsFrom(EstimatedRow(a, b, floorPct), a, b)
  {
    FinishLeads(a, b, floorPct, RunToRun);
    FinishLeads(a, b, Some(DecidingPct(floorPct)), if floorPct.Some? then Binding else MeasurementResolution);
    hide Finish;
  }

  /**
   What is reported of the truths behind two readings: their difference up to the error of both, and its
   direction, whatever the floor.
   */
  lemma ReportedDelta(a: real, b: real, floorPct: Option<real>, x: real, y: real)
    requires a >= 0.0 && b >= 0.0 && Behind(x, a) && Behind(y, b)
    ensures var row := EstimatedRow(a, b, floorPct);
      && Abs(row.delta - (y - x)) <= ALPHA * (x + y)
      && (!row.suppressed ==> (row.delta > 0.0 <==> y > x) && (row.delta < 0.0 <==> y < x) && x != y)
  {
    assert ALPHA * x + ALPHA * y == ALPHA * (x + y);
    if !EstimatedRow(a, b, floorPct).suppressed {
      ReportedMeansReal(a, b, floorPct);
    }
  }

  /** A metric without measurement error is held back exactly when there is a floor and the change stays within it. */
  lemma ExactHeldBackWhen(a: real, b: real, floorPct: Option<real>)
    ensures var row := ExactRow(a, b, floorPct);
      && (row.suppressed <==> floorPct.Some? && 200.0 * Abs(b - a) <= floorPct.value * Abs(a + b))
      && (row.basis == if floorPct.None? then Unknown else RunToRun) && row.thresholdPct == floorPct && row.errorBoundPct.None?
  {
    if floorPct.Some? {
      assert floorPct.value / 100.0 * (Abs(a + b) / 2.0) * 200.0 == floorPct.value * Abs(a + b);
    }
  }

  /** The two arms share a floor only if both have one, and then it is one of theirs and no smaller than the other. */
  lemma BindingFloorIs(a: Option<real>, b: Option<real>)
    ensures BindingFloor(a, b).Some? <==> a.Some? && b.Some?
    ensures BindingFloor(a, b).Some? ==>
              BindingFloor(a, b) in {a, b} && BindingFloor(a, b).value >= a.value && BindingFloor(a, b).value >= b.value
  {
  }

  predicate Mirrored(r: Row, s: Row) {
    && s.a == r.b && s.b == r.a && s.delta == -r.delta
    && s.thresholdPct == r.thresholdPct && s.thresholdAbs == r.thresholdAbs && s.basis == r.basis
    && s.errorBoundPct == r.errorBoundPct && s.suppressed == r.suppressed
  }

  lemma FinishMirrored(a: real, b: real, pct: Option<real>, basis: Basis)
    ensures Mirrored(Finish(a, b, pct, basis), Finish(b, a, pct, basis))
  {
    var m, n := Abs(a + b) / 2.0, Abs(b + a) / 2.0;
    assert m == n;
  }

  /** Swapping the sides negates the difference and changes nothing that decides about it. */
  lemma RowsAreSymmetric(a: real, b: real, floorA: Option<real>, floorB: Option<real>)
    ensures BindingFloor(floorA, floorB) == BindingFloor(floorB, floorA)
    ensures Mirrored(EstimatedRow(a, b, BindingFloor(floorA, floorB)), EstimatedRow(b, a, BindingFloor(floorB, floorA)))
    ensures Mirrored(ExactRow(a, b, BindingFloor(floorA, floorB)), ExactRow(b, a, BindingFloor(floorB, floorA)))
  {
    var floor := BindingFloor(floorA, floorB);
    FinishMirrored(a, b, Some(DecidingPct(floor)), if floor.Some? then Binding else MeasurementResolution);
    FinishMirrored(a, b, floor, RunToRun);
    var (s, t, d, e) := (Abs(a + b), Abs(b + a), Abs(a - b), Abs(b - a));
    assert s == t && d == e;
    hide Finish, Abs;
  }
}
