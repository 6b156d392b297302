/** A collector's recorded runs: labels given out, runs kept up to a cap, and what a restart brings back. */
module History {
  import opened Text

  const MAX_SNAPSHOTS: nat := 50

  datatype Run<D> = Run(name: string, data: D)

  datatype LabelError = InvalidLabel(text: string) | DuplicateLabel(text: string)

  /** The runs kept, oldest first, the next automatic number, and how many runs the cap has pushed out. */
  datatype Shelf<D> = Shelf(live: seq<Run<D>>, nextAuto: nat, evicted: nat, max: nat)

  function AutoLabel(n: nat): string {
    "snapshot-" + NatText(n)
  }

  predicate IsLabelChar(c: char) {
    'a' <= c <= 'z' || 'A' <= c <= 'Z' || '0' <= c <= '9' || c == '.' || c == '_' || c == '-'
  }

  predicate ValidLabel(s: string) {
    s != "" && forall i :: 0 <= i < |s| ==> IsLabelChar(s[i])
  }

  function Labels<D>(live: seq<Run<D>>): set<string> {
    set i | 0 <= i < |live| :: live[i].name
  }

  lemma AutoLabelsDistinct(m: nat, n: nat)
    requires AutoLabel(m) == AutoLabel(n)
    ensures m == n
  {
    assert AutoLabel(m)[9..] == NatText(m) && AutoLabel(n)[9..] == NatText(n);
    NatTextInjective(m, n);
  }

  /** The first automatic number from `n` on whose label is not taken. */
  function FirstFree(taken: set<string>, n: nat): (m: nat)
    ensures n <= m <= n + |taken|
    decreases |taken|
  {
    if AutoLabel(n) !in taken then n else FirstFree(taken - {AutoLabel(n)}, n + 1)
  }

  /** The search passes over taken labels only, and stops at one that is not — after at most one try per taken label and one more. */
  lemma {:induction false} FirstFreeIs(taken: set<string>, n: nat)
    ensures AutoLabel(FirstFree(taken, n)) !in taken
    ensures forall k :: n <= k < FirstFree(taken, n) ==> AutoLabel(k) in taken
    decreases |taken|
  {
    if AutoLabel(n) in taken {
      FirstFreeIs(taken - {AutoLabel(n)}, n + 1);
      var m := FirstFree(taken, n);
      if AutoLabel(m) == AutoLabel(n) { AutoLabelsDistinct(m, n); }
    }
  }

  function Reserved<D>(s: Shelf<D>, requested: Option<string>): (Result<string, LabelError>, Shelf<D>) {
    match requested
    case Some(l) =>
      if !ValidLabel(l) then (Failure(InvalidLabel(l)), s)
      else if l in Labels(s.live) then (Failure(DuplicateLabel(l)), s)
      else (Success(l), s)
    case None =>
      var m := FirstFree(Labels(s.live), s.nextAuto);
      (Success(AutoLabel(m)), s.(nextAuto := m + 1))
  }

  function Pushed<D>(s: Shelf<D>, run: Run<D>): Shelf<D> {
    var all := s.live + [run];
    var over := if |all| > s.max then |all| - s.max else 0;
    s.(live := all[over..], evicted := s.evicted + over)
  }

  /** What a file brings back: the runs it could restore, pushed one by one, and its counters. */
  function Restored<D>(runs: seq<Run<D>>, nextAuto: nat, evicted: nat): Shelf<D> {
    PushedAll(Shelf([], 1, 0, MAX_SNAPSHOTS), runs).(nextAuto := if nextAuto < 1 then 1 else nextAuto, evicted := evicted)
  }

  function PushedAll<D>(s: Shelf<D>, runs: seq<Run<D>>): Shelf<D> {
    if runs == [] then s else Pushed(PushedAll(s, runs[..|runs| - 1]), runs[|runs| - 1])
  }

  class History<D> {
    var live: seq<Run<D>>
    var nextAuto: nat
    var evicted: nat
    const max: nat

    ghost function Now(): Shelf<D>
      reads this
    {
      Shelf(live, nextAuto, evicted, max)
    }

    constructor (max: nat)
      ensures Now() == Shelf([], 1, 0, if max < 1 then 1 else max)
    {
      live, nextAuto, evicted := [], 1, 0;
      this.max := if max < 1 then 1 else max;
    }

    method Taken(l: string) returns (taken: bool)
      ensures taken == (l in Labels(live))
    {
      taken := false;
      for i := 0 to |live|
        invariant taken == (l in Labels(live[..i]))
      {
        LabelsMore(live, i);
        taken := taken || live[i].name == l;
      }
      assert live[..|live|] == live;
    }

    method ReserveLabel(requested: Option<string>) returns (r: Result<string, LabelError>)
      modifies this
      ensures (r, Now()) == Reserved(old(Now()), requested)
    {
      hide FirstFree, AutoLabel, Labels;
      if requested.Some? {
        var l := requested.value;
        if !ValidLabel(l) {
          return Failure(InvalidLabel(l));
        }
        var taken := Taken(l);
        return if taken then Failure(DuplicateLabel(l)) else Success(l);
      }
      var candidate := NextAuto();
      r := Success(candidate);
    }

    /** Tries one number after another until its label is free. */
    method NextAuto() returns (candidate: string)
      modifies this
      ensures var m := FirstFree(Labels(live), old(nextAuto));
        candidate == AutoLabel(m) && Now() == old(Now()).(nextAuto := m + 1)
    {
      hide AutoLabel, Labels, FirstFree;
      candidate := AutoLabel(nextAuto);
      nextAuto := nextAuto + 1;
      var taken := Taken(candidate);
      // What is left of the taken labels once those already passed over are set aside.
      ghost var left := Labels(live);
      while taken
        invariant live == old(live) && evicted == old(evicted) && nextAuto > 0
        invariant candidate == AutoLabel(nextAuto - 1) && taken == (candidate in Labels(live))
        invariant FirstFree(Labels(live), old(nextAuto)) == FirstFree(left, nextAuto - 1)
        invariant SameFrom(Labels(live), left, nextAuto - 1)
        decreases |left|
      {
        PassOver(Labels(live), left, nextAuto - 1);
        left := left - {candidate};
        candidate := AutoLabel(nextAuto);
        nextAuto := nextAuto + 1;
        taken := Taken(candidate);
      }
      assert AutoLabel(nextAuto - 1) !in left;
      Stop(left, nextAuto - 1);
    }

    method Push(run: Run<D>)
      modifies this
      ensures Now() == Pushed(old(Now()), run)
    {
      live := live + [run];
      ghost var all := live;
      while |live| > max
        invariant nextAuto == old(nextAuto) && (|live| >= max || live == all)
        invariant evicted == old(evicted) + |all| - |live|
        invariant |live| <= |all| && live == all[|all| - |live|..]
        decreases |live|
      {
        live, evicted := live[1..], evicted + 1;
      }
    }
  }

  /** The two sets hold the same automatic labels, from number `n` on. */
  ghost predicate SameFrom(taken: set<string>, left: set<string>, n: nat) {
    forall k: nat :: k >= n ==> (AutoLabel(k) in taken <==> AutoLabel(k) in left)
  }

  lemma PassOver(taken: set<string>, left: set<string>, n: nat)
    requires SameFrom(taken, left, n) && AutoLabel(n) in taken
    ensures AutoLabel(n) in left && SameFrom(taken, left - {AutoLabel(n)}, n + 1)
    ensures FirstFree(left, n) == FirstFree(left - {AutoLabel(n)}, n + 1)
  {
    forall k: nat | k > n
      ensures AutoLabel(k) != AutoLabel(n)
    {
      if AutoLabel(k) == AutoLabel(n) { AutoLabelsDistinct(k, n); }
    }
    hide AutoLabel;
  }

  lemma Stop(left: set<string>, n: nat)
    requires AutoLabel(n) !in left
    ensures FirstFree(left, n) == n
  {
  }

  lemma LabelsMore<D>(live: seq<Run<D>>, i: nat)
    requires i < |live|
    ensures Labels(live[..i + 1]) == Labels(live[..i]) + {live[i].name}
  {
    assert live[..i + 1] == live[..i] + [live[i]];
    forall l
      ensures l in Labels(live[..i + 1]) <==> l in Labels(live[..i]) + {live[i].name}
    {
      if l in Labels(live[..i]) {
        var j :| 0 <= j < i && live[..i][j].name == l;
        assert live[..i + 1][j].name == l;
      }
      assert live[..i + 1][i].name in Labels(live[..i + 1]);
      if l in Labels(live[..i + 1]) {
        var j :| 0 <= j < i + 1 && live[..i + 1][j].name == l;
        assert j < i ==> live[..i][j].name == l;
      }
    }
  }

  // ---- Over whole runs ---------------------------------------------------------------------------

  /** A label is asked for and the run recorded, or the process restarts with the runs its file could restore. */
  datatype Event<D> = Record(requested: Option<string>, data: D) | Restart(kept: seq<bool>)

  /** The shelf, every run ever recorded, and every number given out automatically. */
  datatype World<D> = World(shelf: Shelf<D>, recorded: seq<Run<D>>, autos: seq<nat>)

  function Kept<D>(live: seq<Run<D>>, kept: seq<bool>): seq<Run<D>> {
    if live == [] then []
    else
      Kept(live[..|live| - 1], kept) + if |live| <= |kept| && kept[|live| - 1] then [live[|live| - 1]] else []
  }

  function Next<D>(w: World<D>, e: Event<D>): World<D> {
    match e
    case Record(requested, data) =>
      var (reserved, s) := Reserved(w.shelf, requested);
      if reserved.Failure? then w
      else
        var run := Run(reserved.value, data);
        World(Pushed(s, run), w.recorded + [run], if requested.None? then w.autos + [s.nextAuto - 1] else w.autos)
    case Restart(kept) => w.(shelf := Restored(Kept(w.shelf.live, kept), w.shelf.nextAuto, w.shelf.evicted))
  }

  ghost predicate Distinct<D>(live: seq<Run<D>>) {
    forall i, j :: 0 <= i < j < |live| ==> live[i].name != live[j].name
  }

  ghost predicate Ascending(ns: seq<nat>) {
    forall i, j :: 0 <= i < j < |ns| ==> ns[i] < ns[j]
  }

  ghost predicate Inv<D>(w: World<D>) {
    && w.shelf.max == MAX_SNAPSHOTS && |w.shelf.live| <= MAX_SNAPSHOTS && Distinct(w.shelf.live)
    && Ascending(w.autos) && forall n :: n in w.autos ==> n < w.shelf.nextAuto
  }

  lemma AppendKeeps<D>(live: seq<Run<D>>, run: Run<D>)
    requires Distinct(live) && run.name !in Labels(live)
    ensures Distinct(live + [run]) && Labels(live + [run]) == Labels(live) + {run.name}
  {
    var all := live + [run];
    assert forall i :: 0 <= i < |live| ==> live[i].name in Labels(live);
    LabelsMore(all, |live|);
    assert all[..|live|] == live && all[..|live| + 1] == all;
  }

  lemma SuffixKeeps<D>(all: seq<Run<D>>, from: nat)
    requires Distinct(all) && from <= |all|
    ensures Distinct(all[from..]) && Labels(all[from..]) <= Labels(all)
  {
    forall l | l in Labels(all[from..])
      ensures l in Labels(all)
    {
      var i :| 0 <= i < |all| - from && all[from..][i].name == l;
      assert all[from + i].name == l;
    }
  }

  lemma PushKeeps<D>(s: Shelf<D>, run: Run<D>)
    requires Distinct(s.live) && run.name !in Labels(s.live)
    ensures Distinct(Pushed(s, run).live) && |Pushed(s, run).live| <= s.max && Pushed(s, run).max == s.max
    ensures Labels(Pushed(s, run).live) <= Labels(s.live) + {run.name}
  {
    var all := s.live + [run];
    AppendKeeps(s.live, run);
    hide Distinct, Labels;
    SuffixKeeps(all, if |all| > s.max then |all| - s.max else 0);
  }

  lemma {:induction false} KeptDistinct<D>(live: seq<Run<D>>, kept: seq<bool>)
    requires Distinct(live)
    ensures Distinct(Kept(live, kept)) && Labels(Kept(live, kept)) <= Labels(live)
  {
    if live != [] {
      var front, last := live[..|live| - 1], live[|live| - 1];
      KeptDistinct(front, kept);
      LabelsMore(live, |live| - 1);
      assert live[..|live|] == live;
      forall i | 0 <= i < |Kept(front, kept)|
        ensures Kept(front, kept)[i].name != last.name
      {
        assert Kept(front, kept)[i].name in Labels(Kept(front, kept));
        var j :| 0 <= j < |front| && front[j].name == Kept(front, kept)[i].name;
        assert live[j].name != live[|live| - 1].name;
      }
      var r := Kept(live, kept);
      if r != Kept(front, kept) {
        LabelsMore(r, |r| - 1);
        assert r[..|r| - 1] == Kept(front, kept) && r[..|r|] == r;
      }
    }
  }

  lemma {:induction false} PushedAllKeeps<D>(s: Shelf<D>, runs: seq<Run<D>>)
    requires s.live == [] && Distinct(runs)
    ensures var r := PushedAll(s, runs); Distinct(r.live) && |r.live| <= s.max && r.max == s.max && Labels(r.live) <= Labels(runs)
  {
    if runs != [] {
      var front, last := runs[..|runs| - 1], runs[|runs| - 1];
      PushedAllKeeps(s, front);
      LabelsMore(runs, |runs| - 1);
      assert runs[..|runs|] == runs;
      assert forall i :: 0 <= i < |front| ==> front[i].name == runs[i].name != last.name;
      PushKeeps(PushedAll(s, front), last);
    }
  }

  lemma AutosClimb(autos: seq<nat>, next: nat, m: nat)
    requires Ascending(autos) && (forall n :: n in autos ==> n < next) && next <= m
    ensures Ascending(autos + [m]) && forall n :: n in autos + [m] ==> n < m + 1
  {
    assert forall i :: 0 <= i < |autos| ==> autos[i] in autos;
  }

  /** Every step keeps live labels distinct, the cap, and automatic numbers climbing — restarts included. */
  lemma InvKept<D>(w: World<D>, e: Event<D>)
    requires Inv(w)
    ensures Inv(Next(w, e))
  {
    hide FirstFree, AutoLabel, Pushed, PushedAll, Kept, Labels;
    match e {
      case Record(requested, data) =>
        var (reserved, s) := Reserved(w.shelf, requested);
        FirstFreeIs(Labels(w.shelf.live), w.shelf.nextAuto);
        AutosClimb(w.autos, w.shelf.nextAuto, FirstFree(Labels(w.shelf.live), w.shelf.nextAuto));
        if reserved.Success? {
          PushKeeps(s, Run(reserved.value, data));
          PushedCounters(s, Run(reserved.value, data));
        }
      case Restart(kept) =>
        KeptDistinct(w.shelf.live, kept);
        PushedAllKeeps(Shelf([], 1, 0, MAX_SNAPSHOTS), Kept(w.shelf.live, kept));
    }
  }

  lemma PushedCounters<D>(s: Shelf<D>, run: Run<D>)
    ensures Pushed(s, run).nextAuto == s.nextAuto
    ensures Pushed(s, run).evicted + |Pushed(s, run).live| == s.evicted + |s.live| + 1
  {
  }

  function Start<D>(): World<D> {
    World(Shelf([], 1, 0, MAX_SNAPSHOTS), [], [])
  }

  function End<D>(w: World<D>, es: seq<Event<D>>): World<D> {
    if es == [] then w else Next(End(w, es[..|es| - 1]), es[|es| - 1])
  }

  lemma {:induction false} InvAlways<D>(es: seq<Event<D>>)
    ensures Inv(End(Start<D>(), es))
  {
    if es != [] {
      InvAlways(es[..|es| - 1]);
      InvKept(End(Start<D>(), es[..|es| - 1]), es[|es| - 1]);
    }
  }

  /** Automatic labels are never given out twice, however often the process restarts in between. */
  lemma AutoLabelsNeverRepeat<D>(es: seq<Event<D>>, i: nat, j: nat)
    requires i < j < |End(Start<D>(), es).autos|
    ensures AutoLabel(End(Start<D>(), es).autos[i]) != AutoLabel(End(Start<D>(), es).autos[j])
  {
    InvAlways(es);
    var autos := End(Start<D>(), es).autos;
    if AutoLabel(autos[i]) == AutoLabel(autos[j]) { AutoLabelsDistinct(autos[i], autos[j]); }
  }

  /** The runs kept are the last ones recorded. */
  ghost predicate Recent<D>(live: seq<Run<D>>, recorded: seq<Run<D>>) {
    |live| <= |recorded| && live == recorded[|recorded| - |live|..]
  }

  lemma PushRecent<D>(s: Shelf<D>, recorded: seq<Run<D>>, run: Run<D>)
    requires Recent(s.live, recorded)
    ensures Recent(Pushed(s, run).live, recorded + [run])
  {
    var all := s.live + [run];
    var over := if |all| > s.max then |all| - s.max else 0;
    assert all == (recorded + [run])[|recorded| - |s.live|..];
    assert all[over..] == (recorded + [run])[|recorded| - |s.live| + over..];
  }

  /** Within one process the runs kept are the most recent ones, in order, and none is unaccounted for. */
  lemma {:induction false} MostRecentKept<D>(w: World<D>, es: seq<Event<D>>)
    requires Recent(w.shelf.live, w.recorded) && forall i :: 0 <= i < |es| ==> es[i].Record?
    ensures var r := End(w, es);
      && Recent(r.shelf.live, r.recorded)
      && r.shelf.evicted + |r.shelf.live| + |w.recorded| == w.shelf.evicted + |w.shelf.live| + |r.recorded|
  {
    if es != [] {
      var before := End(w, es[..|es| - 1]);
      MostRecentKept(w, es[..|es| - 1]);
      var e := es[|es| - 1];
      var (reserved, s) := Reserved(before.shelf, e.requested);
      if reserved.Success? {
        PushRecent(s, before.recorded, Run(reserved.value, e.data));
        PushedCounters(s, Run(reserved.value, e.data));
      }
      hide FirstFree, AutoLabel, Labels, Pushed, Recent;
    }
  }

  // ---- Labels and counters -----------------------------------------------------------------------

  /** Labels are made of ASCII letters and digits, dots, underscores and hyphens, by their codes; there is at least one. */
  lemma ValidLabelWhen(s: string)
    ensures ValidLabel(s) <==>
              |s| > 0 && forall i :: 0 <= i < |s| ==>
                var code := s[i] as int;
                code in {45, 46, 95} || 48 <= code <= 57 || 65 <= code <= 90 || 97 <= code <= 122
  {
  }

  /** A label asked for is given if it is valid and no live run has it; one not asked for always is, and is nobody's. */
  lemma ReservedWhen<D>(s: Shelf<D>, requested: Option<string>)
    ensures var (r, after) := Reserved(s, requested);
      match requested
      case Some(l) =>
        && after == s
        && (r == Success(l) <==> ValidLabel(l) && forall i :: 0 <= i < |s.live| ==> s.live[i].name != l)
        && (!ValidLabel(l) ==> r == Failure(InvalidLabel(l)))
        && (ValidLabel(l) && (exists i :: 0 <= i < |s.live| && s.live[i].name == l) ==> r == Failure(DuplicateLabel(l)))
      case None =>
        && r.Success? && after.nextAuto > s.nextAuto && r.value == "snapshot-" + NatText(after.nextAuto - 1)
        && (forall i :: 0 <= i < |s.live| ==> s.live[i].name != r.value) && after == s.(nextAuto := after.nextAuto)
  {
    FirstFreeIs(Labels(s.live), s.nextAuto);
    forall i | 0 <= i < |s.live|
      ensures s.live[i].name in Labels(s.live)
    {
    }
    hide ValidLabel, FirstFree;
  }

  /** A restart keeps the counters, and of the runs the file could restore the last ones that fit. */
  lemma {:induction false} RestoredIs<D>(runs: seq<Run<D>>, nextAuto: nat, evicted: nat)
    ensures var s := Restored(runs, nextAuto, evicted);
      && s.evicted == evicted && s.nextAuto >= 1 && (nextAuto >= 1 ==> s.nextAuto == nextAuto) && s.max == MAX_SNAPSHOTS
      && s.live == if |runs| <= MAX_SNAPSHOTS then runs else runs[|runs| - MAX_SNAPSHOTS..]
  {
    PushedAllIs(Shelf([], 1, 0, MAX_SNAPSHOTS), runs);
  }

  lemma {:induction false} PushedAllIs<D>(s: Shelf<D>, runs: seq<Run<D>>)
    requires s.live == []
    ensures PushedAll(s, runs).max == s.max && PushedAll(s, runs).live == if |runs| <= s.max then runs else runs[|runs| - s.max..]
  {
    if runs != [] {
      var front := runs[..|runs| - 1];
      PushedAllIs(s, front);
      assert runs == front + [runs[|runs| - 1]];
    }
  }

  /** Neither a run nor a restart takes back an eviction or an automatic number. */
  lemma CountersClimb<D>(w: World<D>, e: Event<D>)
    requires w.shelf.nextAuto >= 1
    ensures Next(w, e).shelf.evicted >= w.shelf.evicted && Next(w, e).shelf.nextAuto >= w.shelf.nextAuto
    ensures e.Restart? ==> Next(w, e).shelf.evicted == w.shelf.evicted && Next(w, e).shelf.nextAuto == w.shelf.nextAuto
  {
    match e {
      case Record(requested, data) => ReservedWhen(w.shelf, requested);
      case Restart(kept) => RestoredIs(Kept(w.shelf.live, kept), w.shelf.nextAuto, w.shelf.evicted);
    }
    hide Restored, Reserved, Kept;
  }

  /** The first run that is not given a label is `snapshot-1`. */
  lemma FirstAutoLabel<D>(d: D)
    ensures End(Start(), [Record(None, d)]).recorded == [Run("snapshot-1", d)]
  {
    var es: seq<Event<D>> := [Record(None, d)];
    assert es[..0] == [] && es[|es| - 1] == es[0] && End(Start(), es) == Next(Start(), Record(None, d));
    var shelf := Start<D>().shelf;
    assert Labels(shelf.live) == {} && FirstFree({}, 1) == 1 && NatText(1) == "1";
    assert "snapshot-" + "1" == "snapshot-1";
    assert Reserved(shelf, None).0 == Success("snapshot-1");
    assert Start<D>().recorded + [Run("snapshot-1", d)] == [Run("snapshot-1", d)];
  }

  /** One process keeps every run up to the fiftieth, and then always fifty. */
  lemma {:induction false} FiftyKept<D>(es: seq<Event<D>>)
    requires forall i :: 0 <= i < |es| ==> es[i].Record?
    ensures var w := End(Start(), es);
      w.shelf.max == 50 && |w.shelf.live| == if |w.recorded| <= 50 then |w.recorded| else 50
  {
    if es != [] {
      FiftyKept(es[..|es| - 1]);
      hide FirstFree, ValidLabel, AutoLabel, Labels;
    }
  }
}
