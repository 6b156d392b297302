/**
 Bringing the chosen copies to their canonical names, as a function of the directory.

 Every chosen copy that is out of place is first moved to a staging name of its own, so that the
 canonical names are free of each other's files, then moved in. Either move may find its target
 taken, or fail; a copy that cannot be placed goes back where it was, if that is still free.
 */
module Placement {
  import opened Text
  import opened Sorting
  import opened Selection

  /** A directory together with the account kept of it. */
  datatype Disk<N, F> = Disk(
    files: map<N, F>,
    place: map<N, N>,          // where each of the files found at boot is now
    origin: map<N, N>,         // where each file here was then
    trace: seq<map<N, F>>,     // every state so far: what a process that dies may leave behind
    attempts: nat)

  /** The copy of a collector that is loaded, where it belongs, and where it waits on its way. */
  datatype Winner<+N, +K, +F> = Winner(path: N, canonical: N, staging: N, loaded: Loaded<K, F>)

  function WinnerOf<N, K, F>(w: World<N, K, F>, k: K, path: N, file: F): Winner<N, K, F> {
    Winner(path, w.canonical(k), w.staging(w.canonical(k)), Loaded(k, file))
  }

  /** Nothing is lost, nothing is overwritten: the files are those found, each under one name. */
  ghost predicate Sound<N(!new), F>(boot: map<N, F>, s: Disk<N, F>) {
    && s.place.Keys == boot.Keys && s.origin.Keys == s.files.Keys
    && (forall b :: b in boot ==> s.place[b] in s.files && s.origin[s.place[b]] == b && s.files[s.place[b]] == boot[b])
    && (forall p {:trigger Asked(p)} :: Asked(p) && p in s.files ==> s.origin[p] in boot && s.place[s.origin[p]] == p)
    && s.trace != [] && s.trace[|s.trace| - 1] == s.files
  }

  /** The account after one rename attempt: `fails` says which attempts fail. */
  ghost function Try<N, F>(s: Disk<N, F>, fails: nat -> bool, from: N, to: N): Disk<N, F> {
    if from !in s.files || from !in s.origin || to in s.files then s
    else if fails(s.attempts) then s.(attempts := s.attempts + 1)
    else Disk(
      Renamed(s.files, from, to), s.place[s.origin[from] := to], (s.origin - {from})[to := s.origin[from]],
      s.trace + [Renamed(s.files, from, to)], s.attempts + 1)
  }

  /** None of the first `n` rename attempts fails. */
  ghost predicate Clean(fails: nat -> bool, n: nat) {
    forall m :: 0 <= m < n ==> !fails(m)
  }

  predicate Never(n: nat) {
    false
  }

  /** How many of the first `n` attempts succeed. */
  function Succeeded(fails: nat -> bool, n: nat): (m: nat)
    ensures m <= n
  {
    if n == 0 then 0 else Succeeded(fails, n - 1) + if fails(n - 1) then 0 else 1
  }

  lemma {:induction false} CleanSucceeds(fails: nat -> bool, m: nat, n: nat)
    requires m <= n && Clean(fails, m)
    ensures m <= Succeeded(fails, n)
  {
    if m < n {
      CleanSucceeds(fails, m, n - 1);
    } else if m > 0 {
      CleanSucceeds(fails, m - 1, n - 1);
    }
  }

  predicate Lands<N, F>(files: map<N, F>, attempts: nat, fails: nat -> bool, to: N) {
    to !in files && !fails(attempts)
  }

  lemma TrySound<N(!new), F>(boot: map<N, F>, s: Disk<N, F>, fails: nat -> bool, b: N, to: N)
    requires Sound(boot, s) && b in boot
    ensures Sound(boot, Try(s, fails, s.place[b], to))
    ensures Try(s, fails, s.place[b], to).place == if Lands(s.files, s.attempts, fails, to) then s.place[b := to] else s.place
  {
    assert Asked(s.place[b]);
  }

  lemma TryCounts<N, F>(s: Disk<N, F>, fails: nat -> bool, from: N, to: N)
    requires |s.trace| == 1 + Succeeded(fails, s.attempts)
    ensures |Try(s, fails, from, to).trace| == 1 + Succeeded(fails, Try(s, fails, from, to).attempts)
  {
  }

  ghost function StageOne<N, K, F>(s: Disk<N, F>, fails: nat -> bool, v: Winner<N, K, F>): (Disk<N, F>, bool) {
    if v.path == v.canonical then (s, false)
    else if v.path == v.staging then (s, true)
    else (Try(s, fails, v.path, v.staging), Lands(s.files, s.attempts, fails, v.staging))
  }

  ghost function StageUpTo<N, K, F>(s: Disk<N, F>, fails: nat -> bool, vs: seq<Winner<N, K, F>>, n: nat): (r: (Disk<N, F>, seq<bool>))
    requires n <= |vs|
    ensures |r.1| == n
  {
    if n == 0 then (s, [])
    else
      var before := StageUpTo(s, fails, vs, n - 1);
      var one := StageOne(before.0, fails, vs[n - 1]);
      (one.0, before.1 + [one.1])
  }

  ghost function PlaceOne<N, K, F>(s: Disk<N, F>, fails: nat -> bool, v: Winner<N, K, F>, staged: bool): Disk<N, F> {
    if !staged then s
    else if Lands(s.files, s.attempts, fails, v.canonical) then Try(s, fails, v.staging, v.canonical)
    else Try(Try(s, fails, v.staging, v.canonical), fails, v.staging, v.path)
  }

  ghost function PlaceUpTo<N, K, F>(
      s: Disk<N, F>, fails: nat -> bool, vs: seq<Winner<N, K, F>>, staged: seq<bool>, n: nat): Disk<N, F>
    requires n <= |vs| == |staged|
  {
    if n == 0 then s
    else PlaceOne(PlaceUpTo(s, fails, vs, staged, n - 1), fails, vs[n - 1], staged[n - 1])
  }

  // ---- What the chosen copies are ---------------------------------------------------------------

  /** Distinct files, all among those found at boot. */
  ghost predicate Distinct<N, K, F>(boot: map<N, F>, vs: seq<Winner<N, K, F>>) {
    && (forall i :: 0 <= i < |vs| ==> vs[i].path in boot)
    && (forall i, j :: 0 <= i < j < |vs| ==> vs[i].path != vs[j].path)
  }

  /** Readable files of distinct collectors, each bound for its collector's own names. */
  ghost predicate Bound<N, K, F>(w: World<N, K, F>, boot: map<N, F>, vs: seq<Winner<N, K, F>>)
    requires Distinct(boot, vs)
  {
    && (forall i :: 0 <= i < |vs| ==>
          && w.json(vs[i].path) && w.read(boot[vs[i].path]) == Some(vs[i].loaded.key)
          && vs[i].canonical == w.canonical(vs[i].loaded.key) && vs[i].staging == w.staging(vs[i].canonical))
    && (forall i, j :: 0 <= i < j < |vs| ==> vs[i].loaded.key != vs[j].loaded.key)
  }

  ghost predicate Home<N, K, F>(s: Disk<N, F>, v: Winner<N, K, F>) {
    v.path in s.place && s.place[v.path] == v.path
  }

  /** Where `v` is after the first move. */
  ghost predicate StagedAs<N, K, F>(s: Disk<N, F>, v: Winner<N, K, F>, staged: bool) {
    && v.path in s.place && s.place[v.path] == (if staged then v.staging else v.path)
    && (staged ==> v.path != v.canonical)
  }

  ghost function Paths<N, K, F>(vs: seq<Winner<N, K, F>>): set<N> {
    set i | 0 <= i < |vs| :: vs[i].path
  }

  /** No `.json` file is left but the chosen copies. */
  ghost predicate Alone<N(!new), K, F>(w: World<N, K, F>, boot: map<N, F>, s: Disk<N, F>, vs: seq<Winner<N, K, F>>)
    requires s.place.Keys == boot.Keys
  {
    forall b :: b in boot && w.json(s.place[b]) ==> b in Paths(vs)
  }

  ghost predicate Apart<N, K, F>(vs: seq<Winner<N, K, F>>) {
    forall i, j :: 0 <= i < j < |vs| ==> vs[i].canonical != vs[j].canonical
  }

  /** A later copy sits where an earlier, out-of-place one must wait. */
  ghost predicate Blocks<N, K, F>(vs: seq<Winner<N, K, F>>, i: nat, j: nat) {
    i < j < |vs| && vs[i].path != vs[i].canonical && vs[j].path == vs[i].staging
  }

  // ---- The first move ---------------------------------------------------------------------------

  lemma StageOneWhere<N(!new), K(!new), F>(
      boot: map<N, F>, s: Disk<N, F>, fails: nat -> bool, vs: seq<Winner<N, K, F>>, n: nat)
    requires Distinct(boot, vs) && Sound(boot, s) && n < |vs| && Home(s, vs[n])
    ensures var r := StageOne(s, fails, vs[n]);
      && Sound(boot, r.0) && StagedAs(r.0, vs[n], r.1)
      && r.0.place == s.place[vs[n].path := r.0.place[vs[n].path]]
  {
    TrySound(boot, s, fails, vs[n].path, vs[n].staging);
  }

  lemma {:induction false} StageWhere<N(!new), K(!new), F>(
      boot: map<N, F>, s: Disk<N, F>, fails: nat -> bool, vs: seq<Winner<N, K, F>>, n: nat)
    requires Distinct(boot, vs) && Sound(boot, s) && n <= |vs| && forall i :: 0 <= i < |vs| ==> Home(s, vs[i])
    ensures var r := StageUpTo(s, fails, vs, n);
      && Sound(boot, r.0)
      && (forall i :: 0 <= i < n ==> StagedAs(r.0, vs[i], r.1[i]))
      && (forall i :: n <= i < |vs| ==> Home(r.0, vs[i]))
      && (forall b :: b in boot && b !in Paths(vs) ==> r.0.place[b] == s.place[b])
  {
    if n > 0 {
      var before := StageUpTo(s, fails, vs, n - 1);
      StageWhere(boot, s, fails, vs, n - 1);
      StageOneWhere(boot, before.0, fails, vs, n - 1);
      var r := StageUpTo(s, fails, vs, n);
      forall i | 0 <= i < n
        ensures StagedAs(r.0, vs[i], r.1[i])
      {
        if i < n - 1 {
          assert StagedAs(before.0, vs[i], before.1[i]);
        }
      }
    }
  }

  /** A copy cannot be staged while a later one sits at its staging name. */
  lemma StageTaken<N(!new), K(!new), F>(
      boot: map<N, F>, s: Disk<N, F>, fails: nat -> bool, vs: seq<Winner<N, K, F>>, i: nat, j: nat)
    requires Distinct(boot, vs) && Sound(boot, s) && forall i :: 0 <= i < |vs| ==> Home(s, vs[i])
    requires Blocks(vs, i, j)
    ensures !StageUpTo(s, fails, vs, i + 1).1[i]
  {
    var before := StageUpTo(s, fails, vs, i).0;
    StageWhere(boot, s, fails, vs, i);
    assert Home(before, vs[j]);
    assert before.place[vs[j].path] in before.files;
  }

  lemma {:induction false} StageDecided<N, K, F>(s: Disk<N, F>, fails: nat -> bool, vs: seq<Winner<N, K, F>>, m: nat, n: nat)
    requires m <= n <= |vs|
    ensures StageUpTo(s, fails, vs, m).1 == StageUpTo(s, fails, vs, n).1[..m]
  {
    if m < n {
      StageDecided(s, fails, vs, m, n - 1);
    } else {
      assert StageUpTo(s, fails, vs, n).1[..n] == StageUpTo(s, fails, vs, n).1;
    }
  }

  /** With no failure and no later copy in the way, a copy finds its staging name free. */
  lemma StagingFree<N(!new), K(!new), F>(
      w: World<N, K, F>, boot: map<N, F>, s: Disk<N, F>, vs: seq<Winner<N, K, F>>, staged: seq<bool>, n: nat)
    requires Laws(w) && Distinct(boot, vs) && Bound(w, boot, vs) && Sound(boot, s) && n < |vs| && |staged| == n
    requires Alone(w, boot, s, vs) && Apart(vs) && forall j :: !Blocks(vs, n, j)
    requires vs[n].path != vs[n].canonical && vs[n].path != vs[n].staging
    requires forall i :: n <= i < |vs| ==> Home(s, vs[i])
    requires forall i :: 0 <= i < n ==> StagedAs(s, vs[i], staged[i])
    requires forall i :: 0 <= i < n && vs[i].path != vs[i].canonical ==> staged[i]
    ensures vs[n].staging !in s.files
  {
    var v := vs[n];
    forall b | b in boot
      ensures s.place[b] != v.staging
    {
      if b in Paths(vs) {
        var i :| 0 <= i < |vs| && vs[i].path == b;
        assert !Blocks(vs, n, i);
        assert i < n ==> StagedAs(s, vs[i], staged[i]);
      }
    }
    assert Asked(v.staging);
  }

  lemma StaysAlone<N(!new), K(!new), F>(
      w: World<N, K, F>, boot: map<N, F>, s1: Disk<N, F>, s2: Disk<N, F>, vs: seq<Winner<N, K, F>>)
    requires Sound(boot, s1) && Sound(boot, s2) && Alone(w, boot, s1, vs)
    requires forall b :: b in boot && b !in Paths(vs) ==> s2.place[b] == s1.place[b]
    ensures Alone(w, boot, s2, vs)
  {
  }

  /** With no failure and no later copy in the way, every copy out of place is staged. */
  lemma {:induction false} StageComplete<N(!new), K(!new), F>(
      w: World<N, K, F>, boot: map<N, F>, s: Disk<N, F>, fails: nat -> bool, vs: seq<Winner<N, K, F>>, n: nat)
    requires Laws(w) && Distinct(boot, vs) && Bound(w, boot, vs) && Sound(boot, s) && n <= |vs|
    requires forall i :: 0 <= i < |vs| ==> Home(s, vs[i])
    requires (forall a :: !fails(a)) && Alone(w, boot, s, vs) && Apart(vs) && forall i, j :: !Blocks(vs, i, j)
    ensures forall i :: 0 <= i < n && vs[i].path != vs[i].canonical ==> StageUpTo(s, fails, vs, n).1[i]
  {
    hide Laws, Sound, Try, Bound, Alone, Apart, Distinct;
    if n > 0 {
      var before := StageUpTo(s, fails, vs, n - 1);
      StageComplete(w, boot, s, fails, vs, n - 1);
      StageWhere(boot, s, fails, vs, n - 1);
      StaysAlone(w, boot, s, before.0, vs);
      var v := vs[n - 1];
      if v.path != v.canonical && v.path != v.staging {
        StagingFree(w, boot, before.0, vs, before.1, n - 1);
      }
    }
  }

  // ---- The second move --------------------------------------------------------------------------

  /** Where `v` may be after the second move. */
  ghost predicate PlacedAs<N, K, F>(s: Disk<N, F>, v: Winner<N, K, F>, staged: bool) {
    && v.path in s.place
    && (if staged then s.place[v.path] in {v.path, v.staging, v.canonical} else s.place[v.path] == v.path)
  }

  lemma PlaceOneWhere<N(!new), K(!new), F>(
      boot: map<N, F>, s: Disk<N, F>, fails: nat -> bool, vs: seq<Winner<N, K, F>>, n: nat, staged: bool)
    requires Distinct(boot, vs) && Sound(boot, s) && n < |vs| && StagedAs(s, vs[n], staged)
    ensures var r := PlaceOne(s, fails, vs[n], staged);
      && Sound(boot, r) && PlacedAs(r, vs[n], staged)
      && r.place == s.place[vs[n].path := r.place[vs[n].path]]
  {
    if staged {
      TrySound(boot, s, fails, vs[n].path, vs[n].canonical);
      var t := Try(s, fails, vs[n].staging, vs[n].canonical);
      TrySound(boot, t, fails, vs[n].path, vs[n].path);
    }
  }

  lemma {:induction false} PlaceWhere<N(!new), K(!new), F>(
      boot: map<N, F>, s: Disk<N, F>, fails: nat -> bool, vs: seq<Winner<N, K, F>>, staged: seq<bool>, n: nat)
    requires Distinct(boot, vs) && Sound(boot, s) && n <= |vs| == |staged|
    requires forall i :: 0 <= i < |vs| ==> StagedAs(s, vs[i], staged[i])
    ensures var r := PlaceUpTo(s, fails, vs, staged, n);
      && Sound(boot, r)
      && (forall i :: 0 <= i < n ==> PlacedAs(r, vs[i], staged[i]))
      && (forall i :: n <= i < |vs| ==> StagedAs(r, vs[i], staged[i]))
      && (forall b :: b in boot && b !in Paths(vs) ==> r.place[b] == s.place[b])
  {
    if n > 0 {
      var before := PlaceUpTo(s, fails, vs, staged, n - 1);
      PlaceWhere(boot, s, fails, vs, staged, n - 1);
      PlaceOneWhere(boot, before, fails, vs, n - 1, staged[n - 1]);
      var r := PlaceUpTo(s, fails, vs, staged, n);
      forall i | 0 <= i < |vs| && i != n - 1
        ensures i < n - 1 ==> PlacedAs(r, vs[i], staged[i])
        ensures i > n - 1 ==> StagedAs(r, vs[i], staged[i])
      {
        assert i < n - 1 ==> PlacedAs(before, vs[i], staged[i]);
        assert i > n - 1 ==> StagedAs(before, vs[i], staged[i]);
        assert vs[i].path != vs[n - 1].path;
      }
    }
  }

  ghost predicate Arrived<N, K, F>(s: Disk<N, F>, v: Winner<N, K, F>) {
    v.path in s.place && s.place[v.path] == v.canonical
  }

  /** A canonical name is free when its own copy waits at the staging name and no other is there. */
  lemma CanonicalFree<N(!new), K(!new), F>(
      w: World<N, K, F>, boot: map<N, F>, s: Disk<N, F>, vs: seq<Winner<N, K, F>>, staged: seq<bool>, n: nat)
    requires Laws(w) && Distinct(boot, vs) && Bound(w, boot, vs) && Sound(boot, s) && n < |vs| == |staged|
    requires Alone(w, boot, s, vs) && Apart(vs) && staged[n]
    requires forall i :: 0 <= i < n ==> Arrived(s, vs[i])
    requires forall i :: n <= i < |vs| ==> StagedAs(s, vs[i], staged[i])
    requires forall i :: 0 <= i < |vs| && vs[i].path != vs[i].canonical ==> staged[i]
    ensures vs[n].canonical !in s.files
  {
    var v := vs[n];
    forall b | b in boot
      ensures s.place[b] != v.canonical
    {
      if b in Paths(vs) {
        var i :| 0 <= i < |vs| && vs[i].path == b;
        assert i < n ==> Arrived(s, vs[i]);
        assert i >= n ==> StagedAs(s, vs[i], staged[i]);
      }
    }
    assert Asked(v.canonical);
  }

  /** With no failure, the next copy to be placed arrives, and those placed before stay. */
  lemma PlaceStep<N(!new), K(!new), F>(
      w: World<N, K, F>, boot: map<N, F>, s: Disk<N, F>, fails: nat -> bool, vs: seq<Winner<N, K, F>>, staged: seq<bool>, n: nat)
    requires Laws(w) && Distinct(boot, vs) && Bound(w, boot, vs) && Sound(boot, s) && n < |vs| == |staged|
    requires (forall a :: !fails(a)) && Alone(w, boot, s, vs) && Apart(vs)
    requires forall i :: 0 <= i < n ==> Arrived(s, vs[i])
    requires forall i :: n <= i < |vs| ==> StagedAs(s, vs[i], staged[i])
    requires forall i :: 0 <= i < |vs| && vs[i].path != vs[i].canonical ==> staged[i]
    ensures forall i :: 0 <= i <= n ==> Arrived(PlaceOne(s, fails, vs[n], staged[n]), vs[i])
  {
    hide Laws, Sound, Try, Bound, Alone, Apart;
    var v := vs[n];
    assert StagedAs(s, v, staged[n]);
    if staged[n] {
      CanonicalFree(w, boot, s, vs, staged, n);
      TrySound(boot, s, fails, v.path, v.canonical);
      forall i | 0 <= i < n
        ensures Arrived(PlaceOne(s, fails, v, true), vs[i])
      {
        assert Arrived(s, vs[i]);
      }
    }
  }

  /** With no failure, if every copy out of place was staged, every copy ends at its canonical name. */
  lemma {:induction false} PlaceComplete<N(!new), K(!new), F>(
      w: World<N, K, F>, boot: map<N, F>, s: Disk<N, F>, fails: nat -> bool, vs: seq<Winner<N, K, F>>, staged: seq<bool>, n: nat)
    requires Laws(w) && Distinct(boot, vs) && Bound(w, boot, vs) && Sound(boot, s) && n <= |vs| == |staged|
    requires forall i :: 0 <= i < |vs| ==> StagedAs(s, vs[i], staged[i])
    requires (forall a :: !fails(a)) && Alone(w, boot, s, vs) && Apart(vs)
    requires forall i :: 0 <= i < |vs| && vs[i].path != vs[i].canonical ==> staged[i]
    ensures forall i :: 0 <= i < n ==> Arrived(PlaceUpTo(s, fails, vs, staged, n), vs[i])
  {
    hide Laws, Sound, Bound, Alone, Apart, Distinct, PlaceOne, StagedAs, PlacedAs, Arrived;
    if n > 0 {
      var before := PlaceUpTo(s, fails, vs, staged, n - 1);
      PlaceComplete(w, boot, s, fails, vs, staged, n - 1);
      PlaceWhere(boot, s, fails, vs, staged, n - 1);
      StaysAlone(w, boot, s, before, vs);
      PlaceStep(w, boot, before, fails, vs, staged, n - 1);
    }
  }

  // ---- Both moves -------------------------------------------------------------------------------

  ghost function Moved<N, K, F>(s: Disk<N, F>, fails: nat -> bool, vs: seq<Winner<N, K, F>>): Disk<N, F> {
    var r := StageUpTo(s, fails, vs, |vs|);
    PlaceUpTo(r.0, fails, vs, r.1, |vs|)
  }

  lemma MovedWhere<N(!new), K(!new), F>(boot: map<N, F>, s: Disk<N, F>, fails: nat -> bool, vs: seq<Winner<N, K, F>>)
    requires Distinct(boot, vs) && Sound(boot, s) && forall i :: 0 <= i < |vs| ==> Home(s, vs[i])
    ensures Sound(boot, Moved(s, fails, vs))
    ensures forall i :: 0 <= i < |vs| ==> PlacedAs(Moved(s, fails, vs), vs[i], StageUpTo(s, fails, vs, |vs|).1[i])
    ensures forall b :: b in boot && b !in Paths(vs) ==> Moved(s, fails, vs).place[b] == s.place[b]
  {
    hide Distinct, Sound, Home, StagedAs, PlacedAs;
    var r := StageUpTo(s, fails, vs, |vs|);
    StageWhere(boot, s, fails, vs, |vs|);
    PlaceWhere(boot, r.0, fails, vs, r.1, |vs|);
  }

  lemma CleanTry<N, F>(s: Disk<N, F>, fails: nat -> bool, from: N, to: N)
    ensures s.attempts <= Try(s, fails, from, to).attempts
    ensures Clean(fails, Try(s, fails, from, to).attempts) ==> Try(s, fails, from, to) == Try(s, Never, from, to)
  {
    assert !Never(s.attempts);
  }

  lemma CleanStageOne<N(!new), K(!new), F>(boot: map<N, F>, s: Disk<N, F>, fails: nat -> bool, v: Winner<N, K, F>)
    requires Sound(boot, s) && v.path in boot && Home(s, v)
    ensures var r := StageOne(s, fails, v);
      s.attempts <= r.0.attempts && (Clean(fails, r.0.attempts) ==> r == StageOne(s, Never, v))
  {
    CleanTry(s, fails, v.path, v.staging);
    assert Asked(v.path) && !Never(s.attempts);
  }

  lemma CleanPlaceOne<N(!new), K(!new), F>(
      boot: map<N, F>, s: Disk<N, F>, fails: nat -> bool, v: Winner<N, K, F>, staged: bool)
    requires Sound(boot, s) && v.path in boot && StagedAs(s, v, staged)
    ensures var r := PlaceOne(s, fails, v, staged);
      s.attempts <= r.attempts && (Clean(fails, r.attempts) ==> r == PlaceOne(s, Never, v, staged))
  {
    if staged {
      assert Asked(v.staging) && !Never(s.attempts);
      var t := Try(s, fails, v.staging, v.canonical);
      CleanTry(s, fails, v.staging, v.canonical);
      CleanTry(t, fails, v.staging, v.path);
    }
  }

  lemma {:induction false} CleanStaging<N(!new), K(!new), F>(
      boot: map<N, F>, s: Disk<N, F>, fails: nat -> bool, vs: seq<Winner<N, K, F>>, n: nat)
    requires Distinct(boot, vs) && Sound(boot, s) && n <= |vs| && forall i :: 0 <= i < |vs| ==> Home(s, vs[i])
    ensures var r := StageUpTo(s, fails, vs, n);
      s.attempts <= r.0.attempts && (Clean(fails, r.0.attempts) ==> r == StageUpTo(s, Never, vs, n))
  {
    if n > 0 {
      var before := StageUpTo(s, fails, vs, n - 1).0;
      assert vs[n - 1].path in boot;
      hide Sound, Distinct, Home, StagedAs, StageOne;
      CleanStaging(boot, s, fails, vs, n - 1);
      StageWhere(boot, s, fails, vs, n - 1);
      CleanStageOne(boot, before, fails, vs[n - 1]);
      CleanBefore(fails, before.attempts, StageUpTo(s, fails, vs, n).0.attempts);
    }
  }

  lemma {:induction false} CleanPlacing<N(!new), K(!new), F>(
      boot: map<N, F>, s: Disk<N, F>, fails: nat -> bool, vs: seq<Winner<N, K, F>>, staged: seq<bool>, n: nat)
    requires Distinct(boot, vs) && Sound(boot, s) && n <= |vs| == |staged|
    requires forall i :: 0 <= i < |vs| ==> StagedAs(s, vs[i], staged[i])
    ensures var r := PlaceUpTo(s, fails, vs, staged, n);
      s.attempts <= r.attempts && (Clean(fails, r.attempts) ==> r == PlaceUpTo(s, Never, vs, staged, n))
  {
    if n > 0 {
      var before := PlaceUpTo(s, fails, vs, staged, n - 1);
      assert vs[n - 1].path in boot;
      hide Sound, Distinct, StagedAs, PlacedAs, PlaceOne;
      CleanPlacing(boot, s, fails, vs, staged, n - 1);
      PlaceWhere(boot, s, fails, vs, staged, n - 1);
      CleanPlaceOne(boot, before, fails, vs[n - 1], staged[n - 1]);
      CleanBefore(fails, before.attempts, PlaceUpTo(s, fails, vs, staged, n).attempts);
    }
  }

  /** The moves add to what the directory has been through, and change nothing of it. */
  lemma {:induction false} StagingAppends<N, K, F>(s: Disk<N, F>, fails: nat -> bool, vs: seq<Winner<N, K, F>>, n: nat)
    requires n <= |vs|
    ensures s.trace <= StageUpTo(s, fails, vs, n).0.trace
  {
    if n > 0 {
      StagingAppends(s, fails, vs, n - 1);
    }
  }

  lemma {:induction false} PlacingAppends<N, K, F>(
      s: Disk<N, F>, fails: nat -> bool, vs: seq<Winner<N, K, F>>, staged: seq<bool>, n: nat)
    requires n <= |vs| == |staged|
    ensures s.trace <= PlaceUpTo(s, fails, vs, staged, n).trace
  {
    if n > 0 {
      PlacingAppends(s, fails, vs, staged, n - 1);
    }
  }

  lemma MovesAppend<N, K, F>(s: Disk<N, F>, fails: nat -> bool, vs: seq<Winner<N, K, F>>)
    ensures s.trace <= Moved(s, fails, vs).trace
  {
    var r := StageUpTo(s, fails, vs, |vs|);
    StagingAppends(s, fails, vs, |vs|);
    PlacingAppends(r.0, fails, vs, r.1, |vs|);
  }

  lemma CleanBefore(fails: nat -> bool, m: nat, n: nat)
    requires m <= n
    ensures Clean(fails, n) ==> Clean(fails, m)
  {
  }

  /** Only the attempts that are made matter: if none of them fails, it is as if none could. */
  lemma CleanMoves<N(!new), K(!new), F>(boot: map<N, F>, s: Disk<N, F>, fails: nat -> bool, vs: seq<Winner<N, K, F>>)
    requires Distinct(boot, vs) && Sound(boot, s) && forall i :: 0 <= i < |vs| ==> Home(s, vs[i])
    ensures s.attempts <= Moved(s, fails, vs).attempts
    ensures Clean(fails, Moved(s, fails, vs).attempts) ==> Clean(fails, s.attempts) && Moved(s, fails, vs) == Moved(s, Never, vs)
  {
    var r := StageUpTo(s, fails, vs, |vs|);
    hide Sound, Distinct, Home, StagedAs, Clean;
    CleanStaging(boot, s, fails, vs, |vs|);
    StageWhere(boot, s, fails, vs, |vs|);
    CleanPlacing(boot, r.0, fails, vs, r.1, |vs|);
    CleanBefore(fails, r.0.attempts, Moved(s, fails, vs).attempts);
    CleanBefore(fails, s.attempts, r.0.attempts);
  }

  /** A blocked copy is never moved. */
  lemma BlockedStays<N(!new), K(!new), F>(
      boot: map<N, F>, s: Disk<N, F>, fails: nat -> bool, vs: seq<Winner<N, K, F>>, i: nat, j: nat)
    requires Distinct(boot, vs) && Sound(boot, s) && forall n :: 0 <= n < |vs| ==> Home(s, vs[n])
    requires Blocks(vs, i, j)
    ensures Home(Moved(s, fails, vs), vs[i])
  {
    StageTaken(boot, s, fails, vs, i, j);
    StageDecided(s, fails, vs, i + 1, |vs|);
    MovedWhere(boot, s, fails, vs);
    assert PlacedAs(Moved(s, fails, vs), vs[i], StageUpTo(s, fails, vs, |vs|).1[i]);
  }

  /**
   Without failures, every chosen copy reaches its canonical name if and only if none sits where an
   earlier one must wait.
   */
  lemma MovesConverge<N(!new), K(!new), F>(
      w: World<N, K, F>, boot: map<N, F>, s: Disk<N, F>, fails: nat -> bool, vs: seq<Winner<N, K, F>>)
    requires Laws(w) && Distinct(boot, vs) && Bound(w, boot, vs) && Sound(boot, s)
    requires forall i :: 0 <= i < |vs| ==> Home(s, vs[i])
    requires Clean(fails, Moved(s, fails, vs).attempts) && Alone(w, boot, s, vs) && Apart(vs)
    ensures (forall i :: 0 <= i < |vs| ==> Arrived(Moved(s, fails, vs), vs[i])) <==> !exists i, j :: Blocks(vs, i, j)
  {
    if i: nat, j: nat :| Blocks(vs, i, j) {
      BlockedStays(boot, s, fails, vs, i, j);
      assert !Arrived(Moved(s, fails, vs), vs[i]);
    } else {
      hide Laws, Distinct, Bound, Sound, Home, Alone, Apart, StagedAs, Arrived;
      CleanMoves(boot, s, fails, vs);
      var r := StageUpTo(s, Never, vs, |vs|);
      assert forall i, j :: !Blocks(vs, i, j);
      StageComplete(w, boot, s, Never, vs, |vs|);
      StageWhere(boot, s, Never, vs, |vs|);
      StaysAlone(w, boot, s, r.0, vs);
      PlaceComplete(w, boot, r.0, Never, vs, r.1, |vs|);
    }
  }

  /** When every copy is in place, nothing is attempted. */
  lemma {:induction false} NothingToMove<N, K, F>(s: Disk<N, F>, fails: nat -> bool, vs: seq<Winner<N, K, F>>, n: nat)
    requires n <= |vs| && forall i :: 0 <= i < |vs| ==> vs[i].path == vs[i].canonical
    ensures StageUpTo(s, fails, vs, n).0 == s && forall i :: 0 <= i < n ==> !StageUpTo(s, fails, vs, n).1[i]
    ensures forall staged: seq<bool> :: |staged| == |vs| && (forall i :: 0 <= i < |vs| ==> !staged[i]) ==>
              PlaceUpTo(s, fails, vs, staged, n) == s
  {
    if n > 0 {
      NothingToMove(s, fails, vs, n - 1);
    }
  }

  // ---- A pair that never gets home --------------------------------------------------------------

  /** The second copy waits in the first one's way, and the first sits where the second belongs. */
  ghost predicate Deadlock<N, K, F>(vs: seq<Winner<N, K, F>>, i: nat, j: nat) {
    Blocks(vs, i, j) && vs[i].path == vs[j].canonical
  }

  /** Once `vs[i]` is known to stay, `vs[j]` finds its canonical name taken. */
  lemma PlaceTaken<N(!new), K(!new), F>(
      boot: map<N, F>, s: Disk<N, F>, fails: nat -> bool, v: Winner<N, K, F>, staged: bool, other: N)
    requires Sound(boot, s) && v.path in boot && StagedAs(s, v, staged)
    requires other in boot && s.place[other] == v.canonical
    ensures PlaceOne(s, fails, v, staged).place[v.path] ==
            if staged && Lands(s.files, s.attempts, fails, v.path) then v.path else s.place[v.path]
  {
    TrySound(boot, s, fails, v.path, v.canonical);
    TrySound(boot, s, fails, v.path, v.path);
  }

  ghost predicate IsAt<N, F>(s: Disk<N, F>, b: N, p: N) {
    b in s.place && s.place[b] == p
  }

  /** Placing the copies after `vs[j]` leaves `vs[j]` alone. */
  lemma {:induction false} PlaceKeeps<N(!new), K(!new), F>(
      boot: map<N, F>, s: Disk<N, F>, fails: nat -> bool, vs: seq<Winner<N, K, F>>, staged: seq<bool>, j: nat, n: nat, p: N)
    requires Distinct(boot, vs) && Sound(boot, s) && j < n <= |vs| == |staged|
    requires forall i :: 0 <= i < |vs| ==> StagedAs(s, vs[i], staged[i])
    requires IsAt(PlaceUpTo(s, fails, vs, staged, j + 1), vs[j].path, p)
    ensures IsAt(PlaceUpTo(s, fails, vs, staged, n), vs[j].path, p)
  {
    if j + 1 < n {
      assert vs[j].path != vs[n - 1].path;
      hide Distinct, Sound, PlacedAs, PlaceOne, StagedAs;
      PlaceKeeps(boot, s, fails, vs, staged, j, n - 1, p);
      PlaceWhere(boot, s, fails, vs, staged, n - 1);
      PlaceOneWhere(boot, PlaceUpTo(s, fails, vs, staged, n - 1), fails, vs, n - 1, staged[n - 1]);
    }
  }

  /** The name a copy came from is free again, if it is nobody else's. */
  lemma WayBackFree<N(!new), K(!new), F>(
      w: World<N, K, F>, boot: map<N, F>, s: Disk<N, F>, fails: nat -> bool, vs: seq<Winner<N, K, F>>, staged: seq<bool>, i: nat, j: nat)
    requires Laws(w) && Distinct(boot, vs) && Bound(w, boot, vs) && Apart(vs) && Sound(boot, s)
    requires |staged| == |vs| && forall n :: 0 <= n < |vs| ==> StagedAs(s, vs[n], staged[n])
    requires Blocks(vs, i, j) && !staged[i] && staged[j] && vs[j].path != vs[j].staging
    requires forall b :: b in boot && b !in Paths(vs) ==> s.place[b] != vs[j].path
    ensures vs[j].path !in PlaceUpTo(s, fails, vs, staged, j).files
  {
    var before := PlaceUpTo(s, fails, vs, staged, j);
    PlaceWhere(boot, s, fails, vs, staged, j);
    forall b | b in boot
      ensures before.place[b] != vs[j].path
    {
      hide Sound, Alone;
      if b in Paths(vs) {
        var n :| 0 <= n < |vs| && vs[n].path == b;
        assert n < j ==> PlacedAs(before, vs[n], staged[n]);
        assert n >= j ==> StagedAs(before, vs[n], staged[n]);
      }
    }
    assert Asked(vs[j].path);
  }

  lemma DeadlockedPlace<N(!new), K(!new), F>(
      w: World<N, K, F>, boot: map<N, F>, s: Disk<N, F>, fails: nat -> bool, vs: seq<Winner<N, K, F>>, staged: seq<bool>, i: nat, j: nat)
    requires Laws(w) && Distinct(boot, vs) && Bound(w, boot, vs) && Apart(vs) && Sound(boot, s)
    requires |staged| == |vs| && forall n :: 0 <= n < |vs| ==> StagedAs(s, vs[n], staged[n])
    requires Deadlock(vs, i, j) && !staged[i] && forall a :: !fails(a)
    requires forall b :: b in boot && b !in Paths(vs) ==> s.place[b] != vs[j].path
    ensures IsAt(PlaceUpTo(s, fails, vs, staged, j + 1), vs[j].path, vs[j].path)
  {
    var before := PlaceUpTo(s, fails, vs, staged, j);
    assert vs[j].path in boot && vs[i].path in boot;
    if staged[j] && vs[j].path != vs[j].staging {
      WayBackFree(w, boot, s, fails, vs, staged, i, j);
    }
    hide Laws, Distinct, Bound, Apart, Sound;
    PlaceWhere(boot, s, fails, vs, staged, j);
    assert StagedAs(before, vs[j], staged[j]) && PlacedAs(before, vs[i], false);
    PlaceTaken(boot, before, fails, vs[j], staged[j], vs[i].path);
    PlaceOneWhere(boot, before, fails, vs, j, staged[j]);
  }

  lemma HomeIsOwn<N(!new), K, F>(boot: map<N, F>, s: Disk<N, F>, v: Winner<N, K, F>)
    requires Sound(boot, s) && v.path in boot && Home(s, v)
    ensures forall b :: b in boot && b != v.path ==> s.place[b] != v.path
  {
  }

  /**
   Without failures, a deadlocked pair ends where it started, so it is there again at the next
   boot, and at every boot after that.
   */
  lemma DeadlockStays<N(!new), K(!new), F>(
      w: World<N, K, F>, boot: map<N, F>, s: Disk<N, F>, fails: nat -> bool, vs: seq<Winner<N, K, F>>, i: nat, j: nat)
    requires Laws(w) && Distinct(boot, vs) && Bound(w, boot, vs) && Apart(vs) && Sound(boot, s)
    requires forall n :: 0 <= n < |vs| ==> Home(s, vs[n])
    requires Deadlock(vs, i, j) && Clean(fails, Moved(s, fails, vs).attempts)
    ensures Home(Moved(s, fails, vs), vs[i]) && Home(Moved(s, fails, vs), vs[j])
  {
    hide Clean;
    CleanMoves(boot, s, fails, vs);
    assert vs[i].path in boot && vs[j].path in boot && vs[i].path == vs[j].canonical;
    HomeIsOwn(boot, s, vs[j]);
    hide Laws, Distinct, Bound, Apart, Sound, Home, StagedAs;
    var r := StageUpTo(s, Never, vs, |vs|);
    StageTaken(boot, s, Never, vs, i, j);
    StageDecided(s, Never, vs, i + 1, |vs|);
    BlockedStays(boot, s, Never, vs, i, j);
    StageWhere(boot, s, Never, vs, |vs|);
    DeadlockedPlace(w, boot, r.0, Never, vs, r.1, i, j);
    PlaceKeeps(boot, r.0, Never, vs, r.1, j, |vs|, vs[j].path);
  }

  // ---- What a process that dies leaves behind ---------------------------------------------------

  /** Every state so far stands for the same copies as the directory found at boot. */
  ghost predicate Steady<N(!new), K(!new), F(!new)>(w: World<N, K, F>, boot: map<N, F>, s: Disk<N, F>) {
    forall t :: t in s.trace ==> SameSelection(w, boot, t)
  }

  /** A process that dies after its `n`-th rename, where the directory stood for the same copies, leaves one that loads the same. */
  lemma CrashLoadsSame<N(!new), K(!new), F(!new)>(
      w: World<N, K, F>, boot: map<N, F>, s: Disk<N, F>, n: nat, before: seq<Loaded<K, F>>, after: seq<Loaded<K, F>>)
    requires Laws(w) && n < |s.trace| && SameSelection(w, boot, s.trace[n])
    requires IsLoadOf(w, boot, before) && IsLoadOf(w, s.trace[n], after)
    ensures after == before
  {
    SameLoad(w, boot, s.trace[n], before, after);
  }

  /** The directory stands for `v` wherever `v` is now, and would wherever it went next. */
  ghost predicate CalmAt<N(!new), K, F>(w: World<N, K, F>, s: Disk<N, F>, v: Winner<N, K, F>) {
    && v.path in s.place && Newest(w, s.files, v.loaded.key, s.place[v.path])
    && (v.path == v.canonical || Dominates(w, s.files, v.loaded.key, s.place[v.path]))
  }

  ghost predicate Calm<N(!new), K(!new), F(!new)>(w: World<N, K, F>, boot: map<N, F>, s: Disk<N, F>, vs: seq<Winner<N, K, F>>) {
    Steady(w, boot, s) && forall i :: 0 <= i < |vs| ==> CalmAt(w, s, vs[i])
  }

  lemma TryCalm<N(!new), K(!new), F(!new)>(
      w: World<N, K, F>, boot: map<N, F>, s: Disk<N, F>, fails: nat -> bool, vs: seq<Winner<N, K, F>>, n: nat, to: N)
    requires Laws(w) && Distinct(boot, vs) && Bound(w, boot, vs) && Sound(boot, s) && n < |vs|
    requires Calm(w, boot, s, vs) && vs[n].path != vs[n].canonical && w.json(to)
    ensures Calm(w, boot, Try(s, fails, s.place[vs[n].path], to), vs)
  {
    var k, from := vs[n].loaded.key, s.place[vs[n].path];
    var t := Try(s, fails, from, to);
    TrySound(boot, s, fails, vs[n].path, to);
    assert CalmAt(w, s, vs[n]);
    if Lands(s.files, s.attempts, fails, to) {
      MoveDominant(w, s.files, k, from, to);
      SameSelectionTransitive(w, boot, s.files, t.files);
      forall i | 0 <= i < |vs|
        ensures CalmAt(w, t, vs[i])
      {
        assert CalmAt(w, s, vs[i]);
        if i != n {
          RenameKeepsOthers(w, s.files, from, to, vs[i].loaded.key);
        }
      }
    }
  }

  lemma StageOneCalm<N(!new), K(!new), F(!new)>(
      w: World<N, K, F>, boot: map<N, F>, s: Disk<N, F>, fails: nat -> bool, vs: seq<Winner<N, K, F>>, n: nat)
    requires Laws(w) && Distinct(boot, vs) && Bound(w, boot, vs) && Sound(boot, s) && n < |vs|
    requires Home(s, vs[n]) && Calm(w, boot, s, vs)
    ensures Calm(w, boot, StageOne(s, fails, vs[n]).0, vs)
  {
    assert w.json(vs[n].staging);
    hide Laws, Distinct, Bound, Sound, Calm, Try;
    if vs[n].path != vs[n].canonical {
      TryCalm(w, boot, s, fails, vs, n, vs[n].staging);
    }
  }

  lemma {:induction false} StageCalm<N(!new), K(!new), F(!new)>(
      w: World<N, K, F>, boot: map<N, F>, s: Disk<N, F>, fails: nat -> bool, vs: seq<Winner<N, K, F>>, n: nat)
    requires Laws(w) && Distinct(boot, vs) && Bound(w, boot, vs) && Sound(boot, s) && n <= |vs|
    requires (forall i :: 0 <= i < |vs| ==> Home(s, vs[i])) && Calm(w, boot, s, vs)
    ensures Calm(w, boot, StageUpTo(s, fails, vs, n).0, vs)
  {
    hide Laws, Distinct, Bound, Sound, Calm, StageOne, StagedAs, Home;
    if n > 0 {
      StageCalm(w, boot, s, fails, vs, n - 1);
      StageWhere(boot, s, fails, vs, n - 1);
      StageOneCalm(w, boot, StageUpTo(s, fails, vs, n - 1).0, fails, vs, n - 1);
    }
  }

  lemma PlaceOneCalm<N(!new), K(!new), F(!new)>(
      w: World<N, K, F>, boot: map<N, F>, s: Disk<N, F>, fails: nat -> bool, vs: seq<Winner<N, K, F>>, n: nat, staged: bool)
    requires Laws(w) && Distinct(boot, vs) && Bound(w, boot, vs) && Sound(boot, s) && n < |vs|
    requires StagedAs(s, vs[n], staged) && Calm(w, boot, s, vs)
    ensures Calm(w, boot, PlaceOne(s, fails, vs[n], staged), vs)
  {
    var v := vs[n];
    assert w.json(v.path) && w.json(v.canonical) && v.path in boot;
    hide Laws, Distinct, Bound, Sound, Calm;
    if staged {
      TryCalm(w, boot, s, fails, vs, n, v.canonical);
      TrySound(boot, s, fails, v.path, v.canonical);
      TryCalm(w, boot, Try(s, fails, v.staging, v.canonical), fails, vs, n, v.path);
    }
  }

  lemma {:induction false} PlaceCalm<N(!new), K(!new), F(!new)>(
      w: World<N, K, F>, boot: map<N, F>, s: Disk<N, F>, fails: nat -> bool, vs: seq<Winner<N, K, F>>, staged: seq<bool>, n: nat)
    requires Laws(w) && Distinct(boot, vs) && Bound(w, boot, vs) && Sound(boot, s) && n <= |vs| == |staged|
    requires (forall i :: 0 <= i < |vs| ==> StagedAs(s, vs[i], staged[i])) && Calm(w, boot, s, vs)
    ensures Calm(w, boot, PlaceUpTo(s, fails, vs, staged, n), vs)
  {
    hide Laws, Distinct, Bound, Sound, Calm, PlaceOne, StagedAs, PlacedAs;
    if n > 0 {
      PlaceCalm(w, boot, s, fails, vs, staged, n - 1);
      PlaceWhere(boot, s, fails, vs, staged, n - 1);
      PlaceOneCalm(w, boot, PlaceUpTo(s, fails, vs, staged, n - 1), fails, vs, n - 1, staged[n - 1]);
    }
  }

  /** Whatever fails, a process that dies in either move leaves a directory that loads the same. */
  lemma MovesSteady<N(!new), K(!new), F(!new)>(
      w: World<N, K, F>, boot: map<N, F>, s: Disk<N, F>, fails: nat -> bool, vs: seq<Winner<N, K, F>>)
    requires Laws(w) && Distinct(boot, vs) && Bound(w, boot, vs) && Sound(boot, s)
    requires (forall i :: 0 <= i < |vs| ==> Home(s, vs[i])) && Calm(w, boot, s, vs)
    ensures Steady(w, boot, Moved(s, fails, vs))
  {
    hide Distinct, Sound, StagedAs, Home, CalmAt, Steady;
    var r := StageUpTo(s, fails, vs, |vs|);
    StageCalm(w, boot, s, fails, vs, |vs|);
    StageWhere(boot, s, fails, vs, |vs|);
    PlaceCalm(w, boot, r.0, fails, vs, r.1, |vs|);
  }

  /** The first move, of one copy: to its staging name if it is out of place, unless that is taken or the rename fails. */
  lemma StagedWhen<N(!new), K(!new), F>(boot: map<N, F>, s: Disk<N, F>, fails: nat -> bool, v: Winner<N, K, F>)
    requires Sound(boot, s) && v.path in boot && Home(s, v)
    ensures var r := StageOne(s, fails, v);
      && (r.1 <==> v.path != v.canonical && (v.path == v.staging || (v.staging !in s.files && !fails(s.attempts))))
      && r.0.place[v.path] == if r.1 then v.staging else v.path
  {
    TrySound(boot, s, fails, v.path, v.staging);
  }

  /**
   The second move, of one staged copy: to its canonical name, unless that is taken or the rename fails; then
   back where it came from, if that is free and works; else it stays staged.
   */
  lemma PlacedWhen<N(!new), K(!new), F>(boot: map<N, F>, s: Disk<N, F>, fails: nat -> bool, v: Winner<N, K, F>)
    requires Sound(boot, s) && v.path in boot && StagedAs(s, v, true)
    ensures var again := if v.canonical in s.files then s.attempts else s.attempts + 1;
      PlaceOne(s, fails, v, true).place[v.path] ==
        if v.canonical !in s.files && !fails(s.attempts) then v.canonical
        else if v.path !in s.files && !fails(again) then v.path
        else v.staging
  {
    TrySound(boot, s, fails, v.path, v.canonical);
    TrySound(boot, Try(s, fails, v.staging, v.canonical), fails, v.path, v.path);
    assert Asked(v.staging);
  }
}
