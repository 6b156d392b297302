/**
 A lock-free limit on a repeated log line, hit by any number of threads at once.

 Every atomic operation is relaxed: a plain load may return any value the location has held, however
 old. The read-modify-write operations act on the newest one.
 */
module Throttle {
  import opened Text

  const INTERVAL: int := 60_000_000_000
  const MIN_I64: int := -0x8000_0000_0000_0000
  const MAX_I64: int := 0x7fff_ffff_ffff_ffff

  type I64 = n: int | MIN_I64 <= n <= MAX_I64

  function SaturatingSub(a: I64, b: I64): I64 {
    var d := a - b;
    if d < MIN_I64 then MIN_I64 else if d > MAX_I64 then MAX_I64 else d
  }

  datatype Outcome =
    | Logged(total: nat)
    | TooSoon            // within an interval of the time it read
    | Beaten             // somebody else has logged since

  /** One hit on its way. `seen` is the place, in the order of changes, of the time it read. */
  datatype Hit =
    | Arrived(now: I64)
    | Counted(now: I64, total: nat)
    | Read(now: I64, total: nat, seen: nat)
    | Done(now: I64, total: nat, seen: nat, outcome: Outcome)

  /** The count, and every value the last-logged time has had, oldest first. */
  datatype State = State(count: nat, lasts: seq<I64>, hits: seq<Hit>)

  const START := State(0, [MIN_I64], [])

  datatype Event =
    | Arrive(now: I64)
    | Count(hit: nat)
    | Load(hit: nat, seen: nat)
    | Decide(hit: nat)

  predicate Can(s: State, e: Event) {
    match e
    case Arrive(_) => true
    case Count(h) => h < |s.hits| && s.hits[h].Arrived?
    case Load(h, seen) => h < |s.hits| && s.hits[h].Counted? && seen < |s.lasts|
    case Decide(h) => h < |s.hits| && s.hits[h].Read? && s.hits[h].seen < |s.lasts| && s.lasts != []
  }

  function Next(s: State, e: Event): State
    requires Can(s, e)
  {
    match e
    case Arrive(now) => s.(hits := s.hits + [Arrived(now)])
    case Count(h) => s.(count := s.count + 1, hits := s.hits[h := Counted(s.hits[h].now, s.count + 1)])
    case Load(h, seen) => s.(hits := s.hits[h := Read(s.hits[h].now, s.hits[h].total, seen)])
    case Decide(h) =>
      var hit := s.hits[h];
      var last := s.lasts[hit.seen];
      if SaturatingSub(hit.now, last) < INTERVAL then
        s.(hits := s.hits[h := Done(hit.now, hit.total, hit.seen, TooSoon)])
      else if s.lasts[|s.lasts| - 1] != last then
        s.(hits := s.hits[h := Done(hit.now, hit.total, hit.seen, Beaten)])
      else
        s.(lasts := s.lasts + [hit.now], hits := s.hits[h := Done(hit.now, hit.total, hit.seen, Logged(hit.total))])
  }

  // ---- What every run keeps ----------------------------------------------------------------------

  predicate HasTotal(h: Hit) {
    !h.Arrived?
  }

  ghost predicate Apart(lasts: seq<I64>) {
    forall i :: 0 < i < |lasts| ==> lasts[i] - lasts[i - 1] >= INTERVAL
  }

  ghost predicate HitOk(s: State, h: Hit) {
    && (HasTotal(h) ==> 1 <= h.total <= s.count)
    && (h.Read? || h.Done? ==> h.seen < |s.lasts|)
    && (h.Done? ==>
          match h.outcome
          case Logged(total) => total == h.total && h.now in s.lasts[1..] && h.now - s.lasts[h.seen] >= INTERVAL
          case TooSoon => h.now - s.lasts[h.seen] < INTERVAL
          case Beaten => h.seen + 1 < |s.lasts|)
  }

  ghost predicate Inv(s: State) {
    && s.lasts != [] && s.lasts[0] == MIN_I64 && Apart(s.lasts)
    && (forall h :: 0 <= h < |s.hits| ==> HitOk(s, s.hits[h]))
    && (forall g, h :: 0 <= g < h < |s.hits| && HasTotal(s.hits[g]) && HasTotal(s.hits[h]) ==> s.hits[g].total != s.hits[h].total)
    && s.count == |TotalsOf(s)|
  }

  /** The hits that have been counted. */
  ghost function TotalsOf(s: State): set<nat> {
    set h | 0 <= h < |s.hits| && HasTotal(s.hits[h])
  }

  /** A value that is the newest one's equal is the newest one: times only climb. */
  lemma {:induction false} Climbs(lasts: seq<I64>, i: nat, j: nat)
    requires Apart(lasts) && i <= j < |lasts|
    ensures lasts[j] - lasts[i] >= (j - i) * INTERVAL
  {
    if i < j {
      Climbs(lasts, i, j - 1);
      assert lasts[j] - lasts[j - 1] >= INTERVAL;
    }
  }

  lemma HitsKept(s: State, e: Event)
    requires Inv(s) && Can(s, e)
    ensures forall h :: 0 <= h < |Next(s, e).hits| ==> HitOk(Next(s, e), Next(s, e).hits[h])
  {
    var t := Next(s, e);
    forall h | 0 <= h < |t.hits|
      ensures HitOk(t, t.hits[h])
    {
      if h < |s.hits| {
        assert HitOk(s, s.hits[h]);
        assert forall x :: x in s.lasts[1..] ==> x in t.lasts[1..] by {
          assert t.lasts == s.lasts || t.lasts[1..] == s.lasts[1..] + [t.lasts[|s.lasts|]];
        }
        if e == Decide(h) {
          var seen := s.hits[h].seen;
          Climbs(s.lasts, seen, |s.lasts| - 1);
          if |t.lasts| > |s.lasts| {
            assert t.lasts[1..][|s.lasts| - 1] == s.hits[h].now;
          }
        }
      }
    }
  }

  lemma TotalsKept(s: State, e: Event)
    requires s.count == |TotalsOf(s)| && Can(s, e)
    ensures Next(s, e).count == |TotalsOf(Next(s, e))|
  {
    var t := Next(s, e);
    if e.Count? {
      assert TotalsOf(t) == TotalsOf(s) + {e.hit};
    } else {
      assert TotalsOf(t) == TotalsOf(s);
    }
  }

  lemma InvKept(s: State, e: Event)
    requires Inv(s) && Can(s, e)
    ensures Inv(Next(s, e))
  {
    HitsKept(s, e);
    TotalsKept(s, e);
    var t := Next(s, e);
    forall g, h | 0 <= g < h < |t.hits| && HasTotal(t.hits[g]) && HasTotal(t.hits[h])
      ensures t.hits[g].total != t.hits[h].total
    {
      assert HitOk(s, s.hits[g]);
      assert h < |s.hits| ==> HitOk(s, s.hits[h]);
    }
  }

  predicate Runs(s: State, es: seq<Event>)
    decreases |es|
  {
    es == [] || (Can(s, es[0]) && Runs(Next(s, es[0]), es[1..]))
  }

  function End(s: State, es: seq<Event>): State
    requires Runs(s, es)
    decreases |es|
  {
    if es == [] then s else End(Next(s, es[0]), es[1..])
  }

  lemma {:induction false} InvAlways(s: State, es: seq<Event>)
    requires Inv(s) && Runs(s, es)
    ensures Inv(End(s, es))
    decreases |es|
  {
    if es != [] {
      InvKept(s, es[0]);
      hide Inv, Next, Can;
      InvAlways(Next(s, es[0]), es[1..]);
    }
  }

  lemma InvStarts()
    ensures Inv(START)
  {
    assert TotalsOf(START) == {};
  }

  // ---- What that means for the log ---------------------------------------------------------------

  /** However the threads interleave, logged times lie at least a minute apart, in nanoseconds: at most one line a minute. */
  lemma AtMostOneAnInterval(es: seq<Event>, i: nat, j: nat)
    requires Runs(START, es) && 0 < i <= j < |End(START, es).lasts|
    ensures End(START, es).lasts[j] - End(START, es).lasts[i] >= (j - i) * 60_000_000_000
  {
    InvStarts();
    InvAlways(START, es);
    Climbs(End(START, es).lasts, i, j);
  }

  /** Every hit is counted once: no two carry one count, none a count above the total, and none goes missing. */
  lemma EveryHitCounted(es: seq<Event>)
    requires Runs(START, es)
    ensures var s := End(START, es);
      && s.count == |TotalsOf(s)|
      && (forall h :: h in TotalsOf(s) ==> 1 <= s.hits[h].total <= s.count)
      && (forall g, h :: g in TotalsOf(s) && h in TotalsOf(s) && g != h ==> s.hits[g].total != s.hits[h].total)
  {
    InvStarts();
    InvAlways(START, es);
    var s := End(START, es);
    forall h | h in TotalsOf(s)
      ensures 1 <= s.hits[h].total <= s.count
    {
      assert HitOk(s, s.hits[h]);
    }
  }

  /** A hit that is not logged came within an interval of the time it read, or somebody logged after that time. */
  lemma SilenceExplained(es: seq<Event>, h: nat)
    requires Runs(START, es) && h < |End(START, es).hits| && End(START, es).hits[h].Done? && !End(START, es).hits[h].outcome.Logged?
    ensures var (s, hit) := (End(START, es), End(START, es).hits[h]);
      && hit.seen < |s.lasts|
      && (hit.now - s.lasts[hit.seen] < INTERVAL || (hit.seen + 1 < |s.lasts| && s.lasts[hit.seen + 1] - s.lasts[hit.seen] >= INTERVAL))
  {
    InvStarts();
    InvAlways(START, es);
    assert HitOk(End(START, es), End(START, es).hits[h]);
  }

  /** The first occurrence is not lost: once a hit has come to its end, something has been logged. */
  lemma SomethingIsLogged(es: seq<Event>, h: nat)
    requires Runs(START, es) && h < |End(START, es).hits| && End(START, es).hits[h].Done? && End(START, es).hits[h].now >= 0
    ensures |End(START, es).lasts| > 1
  {
    InvStarts();
    InvAlways(START, es);
    assert HitOk(End(START, es), End(START, es).hits[h]);
  }

  /** A hit that nobody gets in the way of is logged if and only if a minute has passed, under the count it was given. */
  lemma LoneHit(s: State, now: I64)
    requires Inv(s)
    ensures var h := |s.hits|;
      var es := [Arrive(now), Count(h), Load(h, |s.lasts| - 1), Decide(h)];
      Runs(s, es) && var r := End(s, es);
      && h < |r.hits| && r.hits[h].Done? && r.count == s.count + 1
      && (r.hits[h].outcome == Logged(s.count + 1) <==> now - s.lasts[|s.lasts| - 1] >= 60_000_000_000)
      && r.lasts == if now - s.lasts[|s.lasts| - 1] >= 60_000_000_000 then s.lasts + [now] else s.lasts
  {
    var h := |s.hits|;
    var es := [Arrive(now), Count(h), Load(h, |s.lasts| - 1), Decide(h)];
    var s1 := Next(s, Arrive(now));
    var s2 := Next(s1, Count(h));
    var s3 := Next(s2, Load(h, |s.lasts| - 1));
    assert s3.hits[h] == Read(now, s.count + 1, |s.lasts| - 1);
    var s4 := Next(s3, Decide(h));
    assert es[1..] == [Count(h), Load(h, |s.lasts| - 1), Decide(h)] && es[1..][1..] == [Load(h, |s.lasts| - 1), Decide(h)];
    assert es[1..][1..][1..] == [Decide(h)] && [Decide(h)][1..] == [];
    hide Next, Can, Inv;
    assert Runs(s3, [Decide(h)]) && End(s3, [Decide(h)]) == s4;
    assert Runs(s2, es[1..][1..]) && End(s2, es[1..][1..]) == s4;
    assert Runs(s1, es[1..]) && End(s1, es[1..]) == s4;
  }
}
