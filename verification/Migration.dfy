/**
 The boot sweep over the collector directory.

 Files written under earlier namings, or moved by hand, are brought to their canonical names by
 renames that may each fail, in a process that may die between any two of them.
 */
module Migration {
  import opened Text
  import opened Sorting
  import opened Selection
  import opened Placement

  /** A finite directory cannot hold every candidate name. */
  lemma {:induction false} TakenBound<N(!new), K(!new), F>(w: World<N, K, F>, path: N, tag: Tag, n: nat, taken: set<N>)
    requires Laws(w) && forall m :: 0 <= m < n ==> w.aside(path, tag, m) in taken
    ensures n <= |taken|
  {
    if n > 0 {
      TakenBound(w, path, tag, n - 1, taken - {w.aside(path, tag, n - 1)});
    }
  }

  /** The first name for `path` set aside that no file has. */
  method FreeAside<N(==, !new), K(!new), F>(w: World<N, K, F>, d: map<N, F>, path: N, tag: Tag) returns (candidate: N)
    requires Laws(w)
    ensures candidate !in d && !w.json(candidate)
    ensures exists n: nat :: candidate == w.aside(path, tag, n) && forall m :: 0 <= m < n ==> w.aside(path, tag, m) in d
  {
    candidate := w.aside(path, tag, 0);
    var n := 1;
    while candidate in d
      invariant n >= 1 && candidate == w.aside(path, tag, n - 1)
      invariant forall m :: 0 <= m < n - 1 ==> w.aside(path, tag, m) in d
      decreases |d.Keys| - n
    {
      TakenBound(w, path, tag, n, d.Keys);
      candidate := w.aside(path, tag, n);
      n := n + 1;
    }
  }

  /** One readable copy: where it is and when it was written. */
  datatype Copy<+N> = Copy(path: N, mtime: int)

  function CopyLess<N(==), K, F>(w: World<N, K, F>, canonical: N): (Copy<N>, Copy<N>) -> bool {
    (a: Copy<N>, b: Copy<N>) => Precedes(w, a.path, a.mtime, b.path, b.mtime, canonical)
  }

  lemma CopyOrder<N(!new), K(!new), F>(w: World<N, K, F>, canonical: N, s: seq<Copy<N>>)
    requires Laws(w) && forall a, b :: a in s && b in s && a.path == b.path ==> a == b
    ensures Ranks(CopyLess(w, canonical), s)
  {
    var less := CopyLess(w, canonical);
    TotalOrderRanks(w.nameLess, PathsOf(s));
    forall a: Copy<N> | true
      ensures !less(a, a)
    {
    }
    forall a: Copy<N>, b: Copy<N>, c: Copy<N> | less(a, b) && less(b, c)
      ensures less(a, c)
    {
      assert w.nameLess(a.path, b.path) && w.nameLess(b.path, c.path) ==> w.nameLess(a.path, c.path);
    }
    forall a, b | a in s && b in s && a != b
      ensures less(a, b) || less(b, a)
    {
      assert Asked(a.path) && Asked(b.path);
    }
  }

  /** The elements of a finite set, in some order. */
  method ListOf<T(==)>(s: set<T>) returns (list: seq<T>)
    ensures NoRepeats(list) && |list| == |s| && forall x :: x in list <==> x in s
  {
    list := [];
    var rest := s;
    while rest != {}
      invariant rest <= s && NoRepeats(list) && |list| == |s| - |rest|
      invariant forall x :: x in list <==> x in s - rest
      decreases rest
    {
      var x :| x in rest;
      assert x !in list;
      list, rest := list + [x], rest - {x};
    }
  }

  function PathsOf<N>(cs: seq<Copy<N>>): seq<N> {
    seq(|cs|, i requires 0 <= i < |cs| => cs[i].path)
  }

  /** `cs` lists exactly the readable copies of `key`. */
  ghost predicate ListsCopies<N(!new), K, F>(w: World<N, K, F>, d: map<N, F>, key: K, cs: seq<Copy<N>>) {
    forall c :: c in cs <==> c.path in Copies(w, d, key) && c.mtime == w.mtime(d[c.path])
  }

  /** The first of the copies in order of preference is the newest. */
  lemma FirstIsNewest<N(!new), K(!new), F>(w: World<N, K, F>, d: map<N, F>, key: K, sorted: seq<Copy<N>>)
    requires sorted != [] && Sorted(sorted, CopyLess(w, w.canonical(key))) && ListsCopies(w, d, key, sorted)
    ensures Newest(w, d, key, sorted[0].path)
  {
    var p := sorted[0].path;
    assert sorted[0] in sorted;
    forall q | q in Copies(w, d, key) && q != p
      ensures Beats(w, d, key, p, q)
    {
      var c := Copy(q, w.mtime(d[q]));
      assert c in sorted;
      var j :| 0 <= j < |sorted| && sorted[j] == c;
      assert CopyLess(w, w.canonical(key))(sorted[0], sorted[j]);
    }
  }

  lemma RestAreStale<N(!new), K(!new), F>(w: World<N, K, F>, d: map<N, F>, key: K, sorted: seq<Copy<N>>)
    requires sorted != [] && NoRepeats(sorted) && ListsCopies(w, d, key, sorted)
    ensures NoRepeats(PathsOf(sorted[1..]))
    ensures forall p :: p in PathsOf(sorted[1..]) <==> p in Copies(w, d, key) && p != sorted[0].path
  {
    var stale := PathsOf(sorted[1..]);
    forall i | 0 <= i < |sorted|
      ensures sorted[i].path in Copies(w, d, key) && sorted[i].mtime == w.mtime(d[sorted[i].path])
    {
      assert sorted[i] in sorted;
    }
    forall p | p in Copies(w, d, key) && p != sorted[0].path
      ensures p in stale
    {
      assert Copy(p, w.mtime(d[p])) in sorted;
      var j :| 0 <= j < |sorted| && sorted[j] == Copy(p, w.mtime(d[p]));
      assert stale[j - 1] == p;
    }
  }

  /** The newest copy of `key` and the names of the others, in the order of preference. */
  method Rank<N(==, !new), K(==, !new), F>(w: World<N, K, F>, d: map<N, F>, key: K) returns (winner: N, stale: seq<N>)
    requires Laws(w) && Copies(w, d, key) != {}
    ensures Newest(w, d, key, winner) && NoRepeats(stale)
    ensures forall p :: p in stale <==> p in Copies(w, d, key) && p != winner
  {
    var copies := set p | p in d && w.json(p) && w.read(d[p]) == Some(key) :: Copy(p, w.mtime(d[p]));
    var list := ListOf(copies);
    var less := CopyLess(w, w.canonical(key));
    CopyOrder(w, w.canonical(key), list);
    SortCorrect(list, less);
    var sorted := Sort(list, less);
    ghost var some :| some in Copies(w, d, key);
    assert Copy(some, w.mtime(d[some])) in sorted;
    SortedHasNoRepeats(sorted, less);
    FirstIsNewest(w, d, key, sorted);
    RestAreStale(w, d, key, sorted);
    winner, stale := sorted[0].path, PathsOf(sorted[1..]);
  }

  /** The collectors with a readable copy, in key order. */
  method SortedKeys<N(==, !new), K(==, !new), F>(w: World<N, K, F>, d: map<N, F>) returns (keys: seq<K>)
    requires Laws(w)
    ensures Sorted(keys, w.keyLess) && NoRepeats(keys)
    ensures forall k :: k in keys <==> Copies(w, d, k) != {}
  {
    var present := set p | p in d && w.json(p) && w.read(d[p]).Some? :: w.read(d[p]).value;
    var list := ListOf(present);
    TotalOrderRanks(w.keyLess, list);
    SortCorrect(list, w.keyLess);
    keys := Sort(list, w.keyLess);
    SortedHasNoRepeats(keys, w.keyLess);
    forall k
      ensures k in keys <==> Copies(w, d, k) != {}
    {
      if k in keys {
        var p :| p in d && w.json(p) && w.read(d[p]).Some? && w.read(d[p]).value == k;
        assert p in Copies(w, d, k);
      }
      if Copies(w, d, k) != {} {
        var p :| p in Copies(w, d, k);
        assert k in present;
      }
    }
  }

  /** No collector has two readable copies. */
  ghost predicate NoRivals<N(!new), K(!new), F>(w: World<N, K, F>, d: map<N, F>) {
    forall k, p, q :: p in Copies(w, d, k) && q in Copies(w, d, k) ==> p == q
  }

  ghost function AllCopies<N, K, F>(w: World<N, K, F>, d: map<N, F>): set<N> {
    set p | p in d && w.json(p) && w.read(d[p]).Some?
  }

  class Directory<N(==, !new), K(==, !new), F(!new)> {
    const w: World<N, K, F>
    var files: map<N, F>
    /** Renames attempted so far; the `n`-th fails exactly when `fails(n)`. */
    var attempts: nat
    const fails: nat -> bool

    /** The directory as this process found it. */
    ghost const boot: map<N, F>
    /** Where each of the files found then is now, and where each file here was then. */
    ghost var place: map<N, N>
    ghost var origin: map<N, N>
    /** Every state the directory has been in: what a process that dies may leave behind. */
    ghost var trace: seq<map<N, F>>

    ghost function Now(): Disk<N, F>
      reads this
    {
      Disk(files, place, origin, trace, attempts)
    }

    /**
     Nothing is lost, nothing is overwritten: the files are those found, each under one name. The directory
     has been in one state more than renames have succeeded.
     */
    ghost predicate Valid()
      reads this
    {
      Laws(w) && Sound(boot, Now()) && |trace| == 1 + Succeeded(fails, attempts)
    }

    /** What a sweep leaves when it is done is the last of the states it could have been stopped in. */
    lemma LeavesTheSame()
      requires Valid() && Clean(fails, attempts)
      requires forall n :: 0 <= n < |trace| && Clean(fails, n) ==> SameSelection(w, boot, trace[n])
      ensures SameSelection(w, boot, files)
    {
      hide Laws, SameSelection;
      CleanBefore(fails, |trace| - 1, attempts);
    }

    /** A process starts: the directory is as found, and nothing has been moved yet. */
    ghost predicate Started()
      reads this
    {
      Valid() && files == boot && trace == [boot] && attempts == 0 && forall b :: b in boot ==> place[b] == b
    }

    constructor (w: World<N, K, F>, d: map<N, F>, fails: nat -> bool)
      requires Laws(w)
      ensures Started() && boot == d && this.w == w && this.fails == fails
    {
      this.w, this.fails := w, fails;
      files, boot := d, d;
      attempts := 0;
      place := map p | p in d :: p;
      origin := map p | p in d :: p;
      trace := [d];
    }

    /** Every state so far stands for the same copies as the directory found at boot. */
    ghost predicate Steady()
      reads this
    {
      Placement.Steady(w, boot, Now())
    }

    // ---- Renames --------------------------------------------------------------------------------

    /** `rename(2)`. Its target is never taken: every caller has just looked. */
    method Rename(from: N, to: N) returns (ok: bool)
      requires Valid() && from in files && to !in files
      modifies this
      ensures Valid()
      ensures attempts == old(attempts) + 1 && ok == !fails(old(attempts))
      ensures ok ==> files == Renamed(old(files), from, to)
      ensures ok ==> place == old(place)[old(origin[from]) := to] && trace == old(trace) + [files]
      ensures !ok ==> files == old(files) && place == old(place) && origin == old(origin) && trace == old(trace)
      ensures Now() == Try(old(Now()), fails, from, to)
    {
      assert Asked(from);
      TrySound(boot, Now(), fails, origin[from], to);
      TryCounts(Now(), fails, from, to);
      ghost var t, moved := Try(Now(), fails, from, to), Renamed(files, from, to);
      assert t == if fails(attempts) then Now().(attempts := attempts + 1)
                  else Disk(moved, place[origin[from] := to], (origin - {from})[to := origin[from]], trace + [moved], attempts + 1);
      assert (files - {from})[to := files[from]] == moved;
      hide Laws, Sound, Succeeded, Try, Renamed;
      ok := !fails(attempts);
      attempts := attempts + 1;
      if ok {
        files := (files - {from})[to := files[from]];
        place := place[origin[from] := to];
        origin := (origin - {from})[to := origin[from]];
        trace := trace + [files];
      }
      assert Now() == t;
    }

    /** `rename`, refusing to replace anything at `to`. */
    method RenameNoClobber(from: N, to: N) returns (ok: bool)
      requires Valid() && from in files
      modifies this
      ensures Valid()
      ensures Now() == Try(old(Now()), fails, from, to)
      ensures ok == Lands(old(files), old(attempts), fails, to)
    {
      if to in files {
        return false;
      }
      ok := Rename(from, to);
    }

    /** Moves a file out of the sweep's sight, to the first such name not taken. */
    method SetAside(path: N, tag: Tag) returns (moved: Option<N>)
      requires Valid() && path in files
      modifies this
      ensures Valid()
      ensures attempts == old(attempts) + 1 && moved.Some? == !fails(old(attempts))
      ensures moved.Some? ==> !w.json(moved.value) && moved.value !in old(files)
      ensures moved.Some? ==> exists n: nat :: moved.value == w.aside(path, tag, n) &&
                                               forall m :: 0 <= m < n ==> w.aside(path, tag, m) in old(files)
      ensures moved.Some? ==> files == Renamed(old(files), path, moved.value)
      ensures moved.Some? ==> place == old(place)[old(origin[path]) := moved.value] && trace == old(trace) + [files]
      ensures moved.None? ==> files == old(files) && place == old(place) && origin == old(origin) && trace == old(trace)
    {
      var candidate := FreeAside(w, files, path, tag);
      var ok := Rename(path, candidate);
      moved := if ok then Some(candidate) else None;
    }

    // ---- What cannot be read --------------------------------------------------------------------

    /** The files found at boot that the sweep looks at and cannot read. */
    ghost function Hopeless(): set<N> {
      set p | p in boot && w.json(p) && w.read(boot[p]).None?
    }

    /** So far files have only left the sweep's sight; none has taken a new `.json` name. */
    ghost predicate Tame(pl: map<N, N>)
      requires pl.Keys == boot.Keys
    {
      forall b :: b in boot ==> pl[b] == b || !w.json(pl[b])
    }

    /** A file set aside for `tag`, under a name made from its own; or left where it was, as that can fail. */
    ghost predicate AsideOrLeft(b: N, at: N, tag: Tag) {
      at == b || exists n: nat :: at == w.aside(b, tag, n)
    }

    /** It is aside and out of sight, unless its one rename failed. */
    ghost predicate AsideUnless(b: N, at: N, tag: Tag, failed: bool) {
      AsideOrLeft(b, at, tag) && if failed then at == b else !w.json(at)
    }

    /** Moves a file that cannot be read out of the sweep's sight, or leaves it if that fails. */
    method Quarantine(path: N)
      requires Valid() && Steady() && Tame(place) && path in Hopeless() && place[path] == path
      modifies this
      ensures Valid() && Steady() && Tame(place)
      ensures place == old(place)[path := place[path]] && attempts == old(attempts) + 1
      ensures AsideUnless(path, place[path], Corrupt, fails(old(attempts)))
    {
      ghost var before := files;
      var moved := SetAside(path, Corrupt);
      if moved.Some? {
        AsideUnreadable(w, before, path, moved.value);
        SameSelectionTransitive(w, boot, before, files);
      }
    }

    /** The first `n` of `list` have each had their attempt, in turn, and the others have not moved. */
    ghost predicate Tried(list: seq<N>, n: nat, pl: map<N, N>, first: nat, tag: Tag) {
      && (forall m :: 0 <= m < |list| ==> list[m] in pl)
      && (forall m :: 0 <= m < n && m < |list| ==> AsideUnless(list[m], pl[list[m]], tag, fails(first + m)))
      && (forall m :: n <= m < |list| ==> pl[list[m]] == list[m])
    }

    /** No file has moved that is not listed. */
    ghost predicate OthersAsBefore(list: seq<N>, before: map<N, N>, pl: map<N, N>) {
      pl.Keys == before.Keys && forall b :: b in before && b !in list ==> pl[b] == before[b]
    }

    lemma TriedNext(list: seq<N>, n: nat, before: map<N, N>, pl: map<N, N>, first: nat, tag: Tag, at: N)
      requires NoRepeats(list) && n < |list| && Tried(list, n, pl, first, tag) && OthersAsBefore(list, before, pl)
      requires AsideUnless(list[n], at, tag, fails(first + n))
      ensures Tried(list, n + 1, pl[list[n] := at], first, tag) && OthersAsBefore(list, before, pl[list[n] := at])
    {
      hide AsideUnless;
      assert list[n] in list && list[n] in pl;
      var after := pl[list[n] := at];
      forall m | 0 <= m < |list| && m != n
        ensures list[m] != list[n] && after[list[m]] == pl[list[m]]
      {
      }
    }

    lemma LoserElsewhere(list: seq<N>, before: map<N, N>, pl: map<N, N>, b: N)
      requires OthersAsBefore(list, before, pl) && b in before && b !in list
      ensures b in pl && pl[b] == before[b]
    {
    }

    lemma TriedTurn(list: seq<N>, n: nat, pl: map<N, N>, first: nat, tag: Tag)
      requires n < |list| && Tried(list, n, pl, first, tag)
      ensures list[n] in pl && pl[list[n]] == list[n]
    {
    }

    lemma TriedOne(list: seq<N>, pl: map<N, N>, first: nat, tag: Tag, b: N)
      requires Tried(list, |list|, pl, first, tag) && b in list
      ensures b in pl && AsideOrLeft(b, pl[b], tag)
      ensures Clean(fails, first + |list|) ==> !w.json(pl[b])
    {
      var m :| 0 <= m < |list| && list[m] == b;
      assert AsideUnless(list[m], pl[list[m]], tag, fails(first + m));
      hide AsideOrLeft;
    }

    /** Unreadable files are set aside, one attempt each: one that fails does not stop the others. */
    method QuarantineAll(list: seq<N>)
      requires Valid() && Steady() && Tame(place) && NoRepeats(list)
      requires Tried(list, 0, place, attempts, Corrupt) && forall n :: 0 <= n < |list| ==> list[n] in Hopeless()
      modifies this
      ensures Valid() && Steady() && Tame(place)
      ensures OthersAsBefore(list, old(place), place)
      ensures attempts == old(attempts) + |list| && Tried(list, |list|, place, old(attempts), Corrupt)
      ensures list == [] ==> files == old(files)
    {
      assert place.Keys == boot.Keys;
      hide Tried, OthersAsBefore, AsideUnless, Tame, Laws, Sound, Hopeless, NoRepeats, Placement.Steady;
      for i := 0 to |list|
        invariant place.Keys == boot.Keys && Valid() && Steady() && Tame(place)
        invariant OthersAsBefore(list, old(place), place)
        invariant attempts == old(attempts) + i && Tried(list, i, place, old(attempts), Corrupt)
        invariant i == 0 ==> files == old(files)
      {
        ghost var before := place;
        assert list[i] in list;
        TriedTurn(list, i, before, old(attempts), Corrupt);
        Quarantine(list[i]);
        TriedNext(list, i, old(place), before, old(attempts), Corrupt, place[list[i]]);
      }
    }

    /** Moves what cannot be read out of the way: kept, for a build that can read it, but not read again. */
    method Scan()
      requires Started()
      modifies this
      ensures Valid() && Steady() && Tame(place)
      ensures forall b :: b in boot && b !in Hopeless() ==> place[b] == b
      ensures Clean(fails, attempts) ==> forall b :: b in Hopeless() ==> !w.json(place[b])
      ensures forall b :: b in Hopeless() ==> AsideOrLeft(b, place[b], Corrupt)
      ensures attempts == |Hopeless()|
      ensures Hopeless() == {} ==> files == old(files)
    {
      var bad := set p | p in files && w.json(p) && w.read(files[p]).None?;
      assert bad == Hopeless();
      var list := ListOf(bad);
      assert forall n :: 0 <= n < |list| ==> list[n] in list;
      assert list == [] <==> Hopeless() == {} by {
        assert |list| == |Hopeless()|;
      }
      assert Tried(list, 0, place, attempts, Corrupt);
      hide Tried, AsideOrLeft, Tame, Laws, Hopeless, NoRepeats, Placement.Steady;
      QuarantineAll(list);
      forall b | b in Hopeless()
        ensures AsideOrLeft(b, place[b], Corrupt)
        ensures Clean(fails, attempts) ==> !w.json(place[b])
      {
        TriedOne(list, place, 0, Corrupt, b);
      }
    }

    // ---- Choosing among copies ------------------------------------------------------------------

    lemma TameCopies(k: K)
      requires Valid() && Tame(place)
      ensures Copies(w, files, k) <= Copies(w, boot, k)
      ensures forall p :: p in Copies(w, files, k) ==> files[p] == boot[p] && place[p] == p
      ensures forall p :: p in Copies(w, boot, k) && place[p] == p ==> p in Copies(w, files, k)
    {
      forall p | p in Copies(w, files, k)
        ensures p in Copies(w, boot, k) && files[p] == boot[p] && place[p] == p
      {
        assert Asked(p);
      }
    }

    /** Sets one older copy aside, leaving it where it is if that fails. */
    method SetAsideLoser(path: N, ghost k: K, ghost winner: N)
      requires Valid() && Steady() && Tame(place) && Newest(w, boot, k, winner) && place[winner] == winner
      requires path in Copies(w, boot, k) && path != winner && place[path] == path
      modifies this
      ensures Valid() && Steady() && Tame(place)
      ensures place == old(place)[path := place[path]] && attempts == old(attempts) + 1
      ensures AsideUnless(path, place[path], Superseded, fails(old(attempts)))
    {
      TameCopies(k);
      NewestAmongFewer(w, boot, files, k, winner);
      ghost var before := files;
      var moved := SetAside(path, Superseded);
      if moved.Some? {
        AsideLoser(w, before, k, winner, path, moved.value);
        SameSelectionTransitive(w, boot, before, files);
      }
    }

    /** Sets the older copies of one collector aside. */
    method SetAsideLosers(stale: seq<N>, ghost k: K, ghost winner: N)
      requires Valid() && Steady() && Tame(place) && Newest(w, boot, k, winner) && place[winner] == winner
      requires NoRepeats(stale) && Tried(stale, 0, place, attempts, Superseded)
      requires forall n :: 0 <= n < |stale| ==> stale[n] in Copies(w, boot, k) && stale[n] != winner
      modifies this
      ensures Valid() && Steady() && Tame(place)
      ensures OthersAsBefore(stale, old(place), place)
      // One attempt each: one that fails does not stop the others.
      ensures attempts == old(attempts) + |stale| && Tried(stale, |stale|, place, old(attempts), Superseded)
      ensures stale == [] ==> files == old(files)
    {
      assert place.Keys == boot.Keys;
      assert winner !in stale;
      hide Tried, OthersAsBefore, AsideUnless, Newest, Copies, Tame, Laws, Sound, NoRepeats, Placement.Steady;
      for i := 0 to |stale|
        invariant place.Keys == boot.Keys && Valid() && Steady() && Tame(place)
        invariant OthersAsBefore(stale, old(place), place)
        invariant attempts == old(attempts) + i && Tried(stale, i, place, old(attempts), Superseded)
        invariant i == 0 ==> files == old(files)
      {
        ghost var before := place;
        assert stale[i] in stale;
        LoserElsewhere(stale, old(place), before, winner);
        TriedTurn(stale, i, before, old(attempts), Superseded);
        SetAsideLoser(stale[i], k, winner);
        TriedNext(stale, i, old(place), before, old(attempts), Superseded, place[stale[i]]);
      }
    }

    /** The copies of `k` are where they were found. */
    ghost predicate AtHome(pl: map<N, N>, k: K)
      requires pl.Keys == boot.Keys
    {
      forall p :: p in Copies(w, boot, k) ==> pl[p] == p
    }

    /** `v` is the newest copy of `k`, still where it was found; the others are out of sight if no attempt so far failed. */
    ghost predicate Elected(pl: map<N, N>, made: nat, k: K, v: Winner<N, K, F>)
      requires pl.Keys == boot.Keys
    {
      && Newest(w, boot, k, v.path) && v == WinnerOf(w, k, v.path, boot[v.path])
      && pl[v.path] == v.path
      && (forall p :: p in Copies(w, boot, k) && p != v.path ==> AsideOrLeft(p, pl[p], Superseded))
      && (Clean(fails, made) ==> forall p :: p in Copies(w, boot, k) && p != v.path ==> !w.json(pl[p]))
    }

    /** Chooses the newest copy of one collector and sets the others aside. */
    method ElectOne(found: map<N, F>, key: K) returns (v: Winner<N, K, F>)
      requires Valid() && Steady() && Tame(place) && found == boot && Copies(w, boot, key) != {} && AtHome(place, key)
      modifies this
      ensures Valid() && Steady() && Tame(place) && Elected(place, attempts, key, v) && attempts >= old(attempts)
      ensures forall b :: b in boot && b !in Copies(w, boot, key) ==> place[b] == old(place[b])
      ensures NoRivals(w, boot) ==> attempts == old(attempts) && files == old(files)
    {
      var winner, stale := Rank(w, found, key);
      assert forall n :: 0 <= n < |stale| ==> stale[n] in stale;
      SetAsideLosers(stale, key, winner);
      v := WinnerOf(w, key, winner, found[winner]);
      HasElement(stale);
    }

    /** What happens to one collector's copies is nothing to another's. */
    lemma OthersKeep(before: map<N, N>, m: nat, after: map<N, N>, n: nat, k: K, k': K)
      requires before.Keys == after.Keys == boot.Keys && k != k' && m <= n
      requires forall b :: b in boot && b !in Copies(w, boot, k') ==> after[b] == before[b]
      ensures AtHome(before, k) ==> AtHome(after, k)
      ensures forall v :: Elected(before, m, k, v) ==> Elected(after, n, k, v)
    {
      assert Copies(w, boot, k) !! Copies(w, boot, k');
    }

    /** One winner per collector, in key order. */
    method Elect(found: map<N, F>) returns (ws: seq<Winner<N, K, F>>, ghost keys: seq<K>)
      requires Valid() && Steady() && Tame(place) && found == boot && forall k :: AtHome(place, k)
      modifies this
      ensures Valid() && Steady() && Tame(place)
      ensures Sorted(keys, w.keyLess)
      ensures forall k :: k in keys <==> Copies(w, boot, k) != {}
      ensures |ws| == |keys| && forall i :: 0 <= i < |keys| ==> Elected(place, attempts, keys[i], ws[i])
      ensures attempts >= old(attempts)
      ensures forall b :: b in boot && b !in AllCopies(w, boot) ==> place[b] == old(place[b])
      ensures NoRivals(w, boot) ==> attempts == old(attempts) && files == old(files)
    {
      hide Laws, Placement.Steady, Tame, Elected, AtHome, NoRivals, Sorted;
      var order := SortedKeys(w, found);
      keys := order;
      ws := [];
      for i := 0 to |order|
        invariant Valid() && Steady() && Tame(place) && |ws| == i
        invariant forall n :: 0 <= n < i ==> Elected(place, attempts, order[n], ws[n])
        invariant attempts >= old(attempts)
        invariant forall n :: i <= n < |order| ==> AtHome(place, order[n])
        invariant forall b :: b in boot && b !in AllCopies(w, boot) ==> place[b] == old(place[b])
        invariant NoRivals(w, boot) ==> attempts == old(attempts) && files == old(files)
      {
        assert order[i] in order;
        ghost var (before, made) := (place, attempts);
        var v := ElectOne(found, order[i]);
        forall n | 0 <= n < |order| && n != i
          ensures n < i ==> Elected(place, attempts, order[n], ws[n])
          ensures n > i ==> AtHome(place, order[n])
        {
          OthersKeep(before, made, place, attempts, order[n], order[i]);
        }
        assert Copies(w, boot, order[i]) <= AllCopies(w, boot);
        ws := ws + [v];
      }
    }

    // ---- Into place, in two moves ---------------------------------------------------------------

    /** First move: every winner out of place goes to its staging name, if that is free. */
    method Stage(ws: seq<Winner<N, K, F>>) returns (staged: seq<bool>)
      requires Valid() && Distinct(boot, ws) && forall i :: 0 <= i < |ws| ==> Home(Now(), ws[i])
      modifies this
      ensures Valid() && (Now(), staged) == StageUpTo(old(Now()), fails, ws, |ws|)
    {
      hide Laws, Sound, Try, Lands, Distinct;
      staged := [];
      ghost var start := Now();
      for i := 0 to |ws|
        invariant Valid() && (Now(), staged) == StageUpTo(start, fails, ws, i)
      {
        StageWhere(boot, start, fails, ws, i);
        assert Home(Now(), ws[i]);
        var v := ws[i];
        var ok := false;
        if v.path != v.canonical {
          if v.path == v.staging {
            // Left over from a boot that ended half-way.
            ok := true;
          } else {
            Present(Now(), v.path);
            ok := RenameNoClobber(v.path, v.staging);
          }
        }
        staged := staged + [ok];
      }
    }

    lemma Present(s: Disk<N, F>, b: N)
      requires Sound(boot, s) && b in boot
      ensures b in s.place && s.place[b] in s.files && s.files[s.place[b]] == boot[b]
    {
    }

    /** Second move, of one winner: in, or back if its canonical name is taken. */
    method PlaceStaged(ws: seq<Winner<N, K, F>>, i: nat) returns (final: N)
      requires Valid() && Distinct(boot, ws) && i < |ws| && StagedAs(Now(), ws[i], true)
      modifies this
      ensures Valid() && Now() == PlaceOne(old(Now()), fails, ws[i], true)
      ensures IsAt(Now(), ws[i].path, final)
    {
      var v := ws[i];
      PlaceOneWhere(boot, Now(), fails, ws, i, true);
      TrySound(boot, Now(), fails, v.path, v.canonical);
      TrySound(boot, Try(Now(), fails, v.staging, v.canonical), fails, v.path, v.path);
      assert v.path in boot && v.path in place && place[v.path] == v.staging;
      hide Laws, Sound, Try, Distinct;
      Present(Now(), v.path);
      var ok := RenameNoClobber(v.staging, v.canonical);
      if ok {
        final := v.canonical;
      } else {
        Present(Now(), v.path);
        ok := RenameNoClobber(v.staging, v.path);
        final := if ok then v.path else v.staging;
      }
    }

    lemma OthersStay(s: Disk<N, F>, ws: seq<Winner<N, K, F>>, staged: seq<bool>, i: nat, finals: seq<N>)
      requires Distinct(boot, ws) && Sound(boot, s) && |staged| == |ws| == |finals| && i < |ws| && StagedAs(s, ws[i], staged[i])
      requires forall n :: 0 <= n < i ==> IsAt(s, ws[n].path, finals[n])
      ensures forall n :: 0 <= n < i ==> IsAt(PlaceOne(s, fails, ws[i], staged[i]), ws[n].path, finals[n])
    {
      PlaceOneWhere(boot, s, fails, ws, i, staged[i]);
      forall n | 0 <= n < i
        ensures IsAt(PlaceOne(s, fails, ws[i], staged[i]), ws[n].path, finals[n])
      {
        assert IsAt(s, ws[n].path, finals[n]);
      }
    }

    /** Second move: every staged winner goes to its canonical name, or back. */
    method Place(ws: seq<Winner<N, K, F>>, staged: seq<bool>) returns (finals: seq<N>)
      requires Valid() && Distinct(boot, ws) && |staged| == |ws|
      requires forall i :: 0 <= i < |ws| ==> StagedAs(Now(), ws[i], staged[i])
      modifies this
      ensures Valid() && Now() == PlaceUpTo(old(Now()), fails, ws, staged, |ws|)
      ensures |finals| == |ws| && forall i :: 0 <= i < |ws| ==> IsAt(Now(), ws[i].path, finals[i])
    {
      hide Laws, Sound, Distinct, PlacedAs, PlaceOne, IsAt, StagedAs;
      finals := [];
      ghost var start := Now();
      for i := 0 to |ws|
        invariant Valid() && Now() == PlaceUpTo(start, fails, ws, staged, i)
        invariant |finals| == i && forall n :: 0 <= n < i ==> IsAt(Now(), ws[n].path, finals[n])
      {
        PlaceWhere(boot, start, fails, ws, staged, i);
        assert StagedAs(Now(), ws[i], staged[i]);
        OthersStay(Now(), ws, staged, i, finals + seq(|ws| - i, _ => ws[i].path));
        var final := ws[i].path;
        if staged[i] {
          final := PlaceStaged(ws, i);
        } else {
          Unstaged(Now(), ws[i]);
        }
        finals := finals + [final];
      }
    }

    lemma Unstaged(s: Disk<N, F>, v: Winner<N, K, F>)
      requires StagedAs(s, v, false)
      ensures PlaceOne(s, fails, v, false) == s && IsAt(s, v.path, v.path)
    {
    }

    // ---- The whole sweep ------------------------------------------------------------------------

    /** `ws` has the elected copy of every collector found, in key order; `keys` names the collectors. */
    ghost predicate Roster(s: Disk<N, F>, keys: seq<K>, ws: seq<Winner<N, K, F>>) {
      && s.place.Keys == boot.Keys && |ws| == |keys| && Sorted(keys, w.keyLess)
      && (forall k :: k in keys <==> Copies(w, boot, k) != {})
      && forall i :: 0 <= i < |keys| ==> Elected(s.place, s.attempts, keys[i], ws[i])
    }

    lemma RosterBound(s: Disk<N, F>, keys: seq<K>, ws: seq<Winner<N, K, F>>)
      requires Laws(w) && Roster(s, keys, ws)
      ensures Distinct(boot, ws) && Bound(w, boot, ws)
      ensures forall i :: 0 <= i < |ws| ==> Home(s, ws[i]) && keys[i] == ws[i].loaded.key
    {
      forall i | 0 <= i < |ws|
        ensures ws[i].path in Copies(w, boot, keys[i]) && ws[i].loaded.key == keys[i] && Home(s, ws[i])
      {
        assert Elected(s.place, s.attempts, keys[i], ws[i]);
      }
      forall i, j | 0 <= i < j < |ws|
        ensures keys[i] != keys[j]
      {
        assert w.keyLess(keys[i], keys[j]) && Asked(keys[i]);
      }
    }

    lemma RosterApart(s: Disk<N, F>, keys: seq<K>, ws: seq<Winner<N, K, F>>)
      requires Laws(w) && Roster(s, keys, ws) && NamesApart(w, boot)
      ensures Apart(ws)
    {
      RosterBound(s, keys, ws);
      forall i, j | 0 <= i < j < |ws|
        ensures ws[i].canonical != ws[j].canonical
      {
        assert keys[i] in keys && keys[j] in keys;
        assert ws[i].loaded.key != ws[j].loaded.key;
      }
    }

    /** Once the rest is out of sight, every `.json` file is an elected copy. */
    lemma RosterAlone(s: Disk<N, F>, keys: seq<K>, ws: seq<Winner<N, K, F>>)
      requires Laws(w) && Roster(s, keys, ws) && Tame(s.place) && Clean(fails, s.attempts)
      requires forall b :: b in Hopeless() ==> !w.json(s.place[b])
      ensures Alone(w, boot, s, ws)
    {
      forall b | b in boot && w.json(s.place[b])
        ensures b in Paths(ws)
      {
        assert b !in Hopeless();
        var k := w.read(boot[b]).value;
        assert b in Copies(w, boot, k);
        var i :| 0 <= i < |keys| && keys[i] == k;
        assert Elected(s.place, s.attempts, k, ws[i]);
      }
    }

    /** The newest copy of `k` stays the choice wherever it goes: it is strictly newer or in place, or the others are out of sight. */
    ghost predicate Undisputed(pl: map<N, N>, k: K)
      requires pl.Keys == boot.Keys
    {
      Untied(w, boot, k)
      || forall p, q :: Newest(w, boot, k, q) && p in Copies(w, boot, k) && p != q ==> !w.json(pl[p])
    }

    lemma ElectedCalm(s: Disk<N, F>, k: K, v: Winner<N, K, F>)
      requires Laws(w) && Sound(boot, s) && Tame(s.place) && Elected(s.place, s.attempts, k, v)
      requires Undisputed(s.place, k)
      ensures CalmAt(w, s, v)
    {
      forall p | p in Copies(w, s.files, k)
        ensures p in Copies(w, boot, k) && s.files[p] == boot[p] && s.place[p] == p
      {
        assert Asked(p);
      }
      NewestAmongFewer(w, boot, s.files, k, v.path);
      if !Untied(w, boot, k) {
        assert Copies(w, s.files, k) == {v.path};
      }
    }

    /** Of the copies of every collector, the newest is strictly newer or in place already, or alone in the sweep's sight. */
    ghost predicate AllUndisputed(pl: map<N, N>)
      requires pl.Keys == boot.Keys
    {
      forall k :: Undisputed(pl, k)
    }

    lemma CleanUndisputed(s: Disk<N, F>, keys: seq<K>, ws: seq<Winner<N, K, F>>)
      requires Laws(w) && Roster(s, keys, ws) && Clean(fails, s.attempts)
      ensures AllUndisputed(s.place)
    {
      forall k, p, q | Newest(w, boot, k, q) && p in Copies(w, boot, k) && p != q
        ensures !w.json(s.place[p])
      {
        assert k in keys;
        var i :| 0 <= i < |keys| && keys[i] == k;
        assert Elected(s.place, s.attempts, k, ws[i]);
        NewestUnique(w, boot, k, q, ws[i].path);
      }
    }

    /** Copies that were not chosen are where they were before the moves. */
    lemma UndisputedBefore(s: Disk<N, F>, keys: seq<K>, ws: seq<Winner<N, K, F>>, t: Disk<N, F>)
      requires Laws(w) && Roster(s, keys, ws) && t.place.Keys == boot.Keys && AllUndisputed(t.place)
      requires forall b :: b in boot && b !in Paths(ws) ==> t.place[b] == s.place[b]
      ensures AllUndisputed(s.place)
    {
      forall k | !Untied(w, boot, k)
        ensures Undisputed(s.place, k)
      {
        assert Undisputed(t.place, k);
        forall p, q | Newest(w, boot, k, q) && p in Copies(w, boot, k) && p != q
          ensures !w.json(s.place[p])
        {
          if p in Paths(ws) {
            var i :| 0 <= i < |ws| && ws[i].path == p;
            assert Elected(s.place, s.attempts, keys[i], ws[i]);
            NewestUnique(w, boot, k, q, p);
          }
        }
      }
    }

    lemma RosterCalm(s: Disk<N, F>, keys: seq<K>, ws: seq<Winner<N, K, F>>)
      requires Laws(w) && Sound(boot, s) && Tame(s.place) && Roster(s, keys, ws) && Placement.Steady(w, boot, s)
      requires AllUndisputed(s.place)
      ensures Calm(w, boot, s, ws)
    {
      forall i | 0 <= i < |ws|
        ensures CalmAt(w, s, ws[i])
      {
        assert keys[i] in keys && Elected(s.place, s.attempts, keys[i], ws[i]);
        ElectedCalm(s, keys[i], ws[i]);
      }
    }

    function LoadedOf(ws: seq<Winner<N, K, F>>): (cs: seq<Loaded<K, F>>)
      ensures |cs| == |ws| && forall i :: 0 <= i < |ws| ==> cs[i] == ws[i].loaded
    {
      seq(|ws|, i requires 0 <= i < |ws| => ws[i].loaded)
    }

    lemma RosterLoads(s: Disk<N, F>, keys: seq<K>, ws: seq<Winner<N, K, F>>)
      requires Laws(w) && Roster(s, keys, ws)
      ensures IsLoadOf(w, boot, LoadedOf(ws))
    {
      var cs := LoadedOf(ws);
      forall i | 0 <= i < |cs|
        ensures cs[i].key == keys[i] && Newest(w, boot, keys[i], ws[i].path) && boot[ws[i].path] == cs[i].file
      {
        assert Elected(s.place, s.attempts, keys[i], ws[i]);
      }
      forall k, f | Loads(w, boot, k, f)
        ensures Loaded(k, f) in cs
      {
        var p :| Newest(w, boot, k, p) && boot[p] == f;
        assert k in keys;
        var i :| 0 <= i < |keys| && keys[i] == k;
        NewestUnique(w, boot, k, p, ws[i].path);
        assert cs[i] == Loaded(k, f);
      }
    }

    lemma KeysInOrder(keys: seq<K>, i: nat, j: nat)
      requires Laws(w) && Sorted(keys, w.keyLess) && i < |keys| && j < |keys| && w.keyLess(keys[i], keys[j])
      ensures i < j
    {
      assert Asked(keys[i]) && Asked(keys[j]);
    }

    lemma BlocksAre(s: Disk<N, F>, keys: seq<K>, ws: seq<Winner<N, K, F>>)
      requires Laws(w) && Roster(s, keys, ws)
      ensures (exists i, j :: Blocks(ws, i, j)) <==> StagingBlocked(w, boot)
    {
      if i: nat, j: nat :| Blocks(ws, i, j) {
        assert Elected(s.place, s.attempts, keys[i], ws[i]) && Elected(s.place, s.attempts, keys[j], ws[j]);
        assert BlocksStaging(w, boot, keys[i], ws[i].path, keys[j], ws[j].path);
      }
      if k1, p1, k2, p2 :| BlocksStaging(w, boot, k1, p1, k2, p2) {
        var i, j := BlockedPair(s, keys, ws, k1, p1, k2, p2);
      }
    }

    /** The places in the roster of two collectors one of whose copies is in the other's way. */
    lemma BlockedPair(s: Disk<N, F>, keys: seq<K>, ws: seq<Winner<N, K, F>>, k1: K, p1: N, k2: K, p2: N) returns (i: nat, j: nat)
      requires Laws(w) && Roster(s, keys, ws) && BlocksStaging(w, boot, k1, p1, k2, p2)
      ensures Blocks(ws, i, j)
      ensures ws[i] == WinnerOf(w, k1, p1, boot[p1]) && ws[j] == WinnerOf(w, k2, p2, boot[p2])
    {
      assert k1 in keys && k2 in keys;
      i :| i < |keys| && keys[i] == k1;
      j :| j < |keys| && keys[j] == k2;
      assert Elected(s.place, s.attempts, keys[i], ws[i]) && Elected(s.place, s.attempts, keys[j], ws[j]);
      NewestUnique(w, boot, k1, p1, ws[i].path);
      NewestUnique(w, boot, k2, p2, ws[j].path);
      KeysInOrder(keys, i, j);
    }

    /** The directory is in order exactly when every elected copy has arrived. */
    lemma SettledWhen(s: Disk<N, F>, t: Disk<N, F>, ws: seq<Winner<N, K, F>>, staged: seq<bool>)
      requires Laws(w) && Distinct(boot, ws) && Bound(w, boot, ws) && Sound(boot, s) && Sound(boot, t)
      requires Alone(w, boot, s, ws) && forall b :: b in boot && b !in Paths(ws) ==> t.place[b] == s.place[b]
      requires |staged| == |ws| && forall i :: 0 <= i < |ws| ==> PlacedAs(t, ws[i], staged[i])
      ensures Settled(w, t.files) <==> forall i :: 0 <= i < |ws| ==> Arrived(t, ws[i])
    {
      if Settled(w, t.files) {
        forall i | 0 <= i < |ws|
          ensures Arrived(t, ws[i])
        {
          assert PlacedAs(t, ws[i], staged[i]);
        }
      }
      if forall i :: 0 <= i < |ws| ==> Arrived(t, ws[i]) {
        forall p | p in t.files && w.json(p)
          ensures w.read(t.files[p]).Some? && p == w.canonical(w.read(t.files[p]).value)
        {
          assert Asked(p);
          var b := t.origin[p];
          assert b in Paths(ws);
          var i :| 0 <= i < |ws| && ws[i].path == b;
          assert Arrived(t, ws[i]);
        }
      }
    }

    lemma SettledIsTidy(s: Disk<N, F>, keys: seq<K>, ws: seq<Winner<N, K, F>>)
      requires Laws(w) && Settled(w, boot)
      ensures Hopeless() == {} && NoRivals(w, boot)
      ensures Roster(s, keys, ws) ==> forall i :: 0 <= i < |ws| ==> ws[i].path == ws[i].canonical
    {
      if Roster(s, keys, ws) {
        RosterBound(s, keys, ws);
      }
    }

    lemma AllPlaced(s: Disk<N, F>)
      requires Sound(boot, s)
      ensures s.place.Keys == boot.Keys
    {
    }

    /** The elected copies, chosen, alone in the sweep's sight where that could be arranged. */
    method Gather() returns (ws: seq<Winner<N, K, F>>, ghost keys: seq<K>)
      requires Started()
      modifies this
      ensures Valid() && Steady() && Tame(place) && Roster(Now(), keys, ws)
      ensures Clean(fails, attempts) ==> forall b :: b in Hopeless() ==> !w.json(place[b])
      ensures forall b :: b in Hopeless() ==> AsideOrLeft(b, place[b], Corrupt)
      ensures OthersUntouched(Now())
      ensures Hopeless() == {} && NoRivals(w, boot) ==> attempts == old(attempts) && files == old(files)
    {
      hide Laws, Sound, Sorted, Elected, NoRivals, Placement.Steady;
      // Read once: files are renamed below.
      var found := files;
      Scan();
      ws, keys := Elect(found);
      AllPlaced(Now());
    }

    lemma SweepSteady(s: Disk<N, F>, keys: seq<K>, ws: seq<Winner<N, K, F>>)
      requires Laws(w) && Sound(boot, s) && Tame(s.place) && Roster(s, keys, ws) && Placement.Steady(w, boot, s)
      requires AllUndisputed(s.place)
      ensures Placement.Steady(w, boot, Moved(s, fails, ws))
    {
      RosterBound(s, keys, ws);
      RosterCalm(s, keys, ws);
      hide Laws, Sound, Roster, Placement.Steady;
      MovesSteady(w, boot, s, fails, ws);
    }

    /** Where the moves began after a failure, the first `n` states come before them if the first `n` attempts succeeded. */
    lemma BeforeMoves(s: Disk<N, F>, n: nat)
      requires |s.trace| == 1 + Succeeded(fails, s.attempts) && Clean(fails, n) && !Clean(fails, s.attempts)
      ensures n < |s.trace|
    {
      if s.attempts <= n {
        CleanBefore(fails, s.attempts, n);
      }
      CleanSucceeds(fails, n, s.attempts);
    }

    /** After any number of renames, the directory stands for the same copies if none before had failed. */
    lemma SweepCrashes(s: Disk<N, F>, keys: seq<K>, ws: seq<Winner<N, K, F>>, n: nat)
      requires Laws(w) && Sound(boot, s) && Tame(s.place) && Roster(s, keys, ws) && Placement.Steady(w, boot, s)
      requires |s.trace| == 1 + Succeeded(fails, s.attempts)
      requires n < |Moved(s, fails, ws).trace| && Clean(fails, n)
      ensures SameSelection(w, boot, Moved(s, fails, ws).trace[n])
    {
      if Clean(fails, s.attempts) {
        CleanUndisputed(s, keys, ws);
        SweepSteady(s, keys, ws);
        assert Moved(s, fails, ws).trace[n] in Moved(s, fails, ws).trace;
      } else {
        BeforeMoves(s, n);
        MovesAppend(s, fails, ws);
        assert Moved(s, fails, ws).trace[n] == s.trace[n] && s.trace[n] in s.trace;
      }
    }

    lemma SweepConverges(s: Disk<N, F>, keys: seq<K>, ws: seq<Winner<N, K, F>>)
      requires Laws(w) && Sound(boot, s) && Tame(s.place) && Roster(s, keys, ws)
      requires forall b :: b in Hopeless() ==> !w.json(s.place[b])
      requires Clean(fails, Moved(s, fails, ws).attempts) && NamesApart(w, boot)
      ensures Settled(w, Moved(s, fails, ws).files) <==> !StagingBlocked(w, boot)
    {
      RosterBound(s, keys, ws);
      RosterApart(s, keys, ws);
      CleanMoves(boot, s, fails, ws);
      RosterAlone(s, keys, ws);
      BlocksAre(s, keys, ws);
      hide Laws, Sound, Roster, Distinct, Bound, Alone, Apart, Moved, PlacedAs, Settled, StagingBlocked, NamesApart;
      MovesConverge(w, boot, s, fails, ws);
      MovedWhere(boot, s, fails, ws);
      SettledWhen(s, Moved(s, fails, ws), ws, StageUpTo(s, fails, ws, |ws|).1);
    }

    /** The elected copy of `k`, if it has not moved, is then the only copy of `k` in sight. */
    lemma OnlyCopy(s: Disk<N, F>, t: Disk<N, F>, ws: seq<Winner<N, K, F>>, i: nat)
      requires Laws(w) && Distinct(boot, ws) && Bound(w, boot, ws) && Sound(boot, s) && Sound(boot, t)
      requires Alone(w, boot, s, ws) && forall b :: b in boot && b !in Paths(ws) ==> t.place[b] == s.place[b]
      requires i < |ws| && Home(t, ws[i])
      ensures Newest(w, t.files, ws[i].loaded.key, ws[i].path)
    {
      var k, p := ws[i].loaded.key, ws[i].path;
      forall q | q in Copies(w, t.files, k)
        ensures q == p
      {
        assert Asked(q);
        var b := t.origin[q];
        assert b in Paths(ws);
        var j :| 0 <= j < |ws| && ws[j].path == b;
        assert w.read(boot[b]) == Some(ws[j].loaded.key);
      }
    }

    /** A deadlocked pair is there again after the sweep, and so at every boot that follows. */
    lemma SweepDeadlock(s: Disk<N, F>, keys: seq<K>, ws: seq<Winner<N, K, F>>)
      requires Laws(w) && Sound(boot, s) && Tame(s.place) && Roster(s, keys, ws)
      requires forall b :: b in Hopeless() ==> !w.json(s.place[b])
      requires Clean(fails, Moved(s, fails, ws).attempts) && NamesApart(w, boot)
      ensures StillDeadlocked(w, boot, Moved(s, fails, ws).files)
    {
      RosterBound(s, keys, ws);
      RosterApart(s, keys, ws);
      CleanMoves(boot, s, fails, ws);
      RosterAlone(s, keys, ws);
      var t := Moved(s, fails, ws);
      MovedWhere(boot, s, fails, ws);
      forall k1, p1, k2, p2 | Deadlocked(w, boot, k1, p1, k2, p2)
        ensures Deadlocked(w, t.files, k1, p1, k2, p2)
      {
        var i, j := BlockedPair(s, keys, ws, k1, p1, k2, p2);
        hide Laws, Sound, Distinct, Bound, Alone, Apart, Roster, Moved, NamesApart;
        DeadlockStays(w, boot, s, fails, ws, i, j);
        OnlyCopy(s, t, ws, i);
        OnlyCopy(s, t, ws, j);
      }
    }

    lemma SweepIdle(s: Disk<N, F>, keys: seq<K>, ws: seq<Winner<N, K, F>>)
      requires Laws(w) && Roster(s, keys, ws) && Settled(w, boot)
      ensures Moved(s, fails, ws) == s
    {
      SettledIsTidy(s, keys, ws);
      NothingToMove(s, fails, ws, |ws|);
    }

    /** Each loaded file is where it is said to be. */
    ghost predicate FoundAt(s: Disk<N, F>, finals: seq<N>, collectors: seq<Loaded<K, F>>) {
      |finals| == |collectors| && forall i :: 0 <= i < |finals| ==> finals[i] in s.files && s.files[finals[i]] == collectors[i].file
    }

    lemma SweepFinds(s: Disk<N, F>, t: Disk<N, F>, keys: seq<K>, ws: seq<Winner<N, K, F>>, finals: seq<N>)
      requires Roster(s, keys, ws) && Sound(boot, t)
      requires |finals| == |ws| && forall i :: 0 <= i < |ws| ==> IsAt(t, ws[i].path, finals[i])
      ensures FoundAt(t, finals, LoadedOf(ws))
    {
      forall i | 0 <= i < |ws|
        ensures finals[i] in t.files && t.files[finals[i]] == LoadedOf(ws)[i].file
      {
        assert Elected(s.place, s.attempts, keys[i], ws[i]) && IsAt(t, ws[i].path, finals[i]);
      }
    }

    /** Of files that cannot be read, and of copies not chosen, all that moved were set aside, each for its own reason. */
    ghost predicate AsideAsTagged(pl: map<N, N>)
      requires pl.Keys == boot.Keys
    {
      && (forall b :: b in Hopeless() ==> AsideOrLeft(b, pl[b], Corrupt))
      && (forall k, p, q :: Newest(w, boot, k, q) && p in Copies(w, boot, k) && p != q ==> AsideOrLeft(p, pl[p], Superseded))
    }

    ghost predicate OutOfSight(pl: map<N, N>)
      requires pl.Keys == boot.Keys
    {
      && (forall b :: b in Hopeless() ==> !w.json(pl[b]))
      && (forall k, p, q :: Newest(w, boot, k, q) && p in Copies(w, boot, k) && p != q ==> !w.json(pl[p]))
    }

    /** A copy that was not chosen is not on its way anywhere. */
    lemma LoserStays(s: Disk<N, F>, keys: seq<K>, ws: seq<Winner<N, K, F>>, k: K, p: N, q: N)
      requires Laws(w) && Roster(s, keys, ws) && Newest(w, boot, k, q) && p in Copies(w, boot, k) && p != q
      ensures p !in Paths(ws) && AsideOrLeft(p, s.place[p], Superseded)
      ensures Clean(fails, s.attempts) ==> !w.json(s.place[p])
    {
      assert k in keys;
      var j :| 0 <= j < |keys| && keys[j] == k;
      assert Elected(s.place, s.attempts, keys[j], ws[j]);
      NewestUnique(w, boot, k, q, ws[j].path);
      forall i | 0 <= i < |ws|
        ensures ws[i].path != p
      {
        assert Elected(s.place, s.attempts, keys[i], ws[i]);
        if ws[i].path == p { NewestUnique(w, boot, k, q, p); }
      }
    }

    lemma SweepAside(s: Disk<N, F>, keys: seq<K>, ws: seq<Winner<N, K, F>>, t: Disk<N, F>)
      requires Laws(w) && Roster(s, keys, ws) && t.place.Keys == boot.Keys
      requires forall b :: b in boot && b !in Paths(ws) ==> t.place[b] == s.place[b]
      requires forall b :: b in Hopeless() ==> AsideOrLeft(b, s.place[b], Corrupt)
      ensures AsideAsTagged(t.place)
      ensures Clean(fails, s.attempts) && (forall b :: b in Hopeless() ==> !w.json(s.place[b])) ==> OutOfSight(t.place)
    {
      RosterBound(s, keys, ws);
      forall b | b in Hopeless()
        ensures b !in Paths(ws)
      {
        assert forall i :: 0 <= i < |ws| ==> w.read(boot[ws[i].path]).Some?;
      }
      forall k, p, q | Newest(w, boot, k, q) && p in Copies(w, boot, k) && p != q
        ensures t.place[p] == s.place[p] && AsideOrLeft(p, s.place[p], Superseded)
        ensures Clean(fails, s.attempts) ==> !w.json(s.place[p])
      {
        LoserStays(s, keys, ws, k, p, q);
      }
      hide Laws, Roster, Newest, Distinct, Bound, Copies;
    }

    /** Files the sweep does not read are not touched. */
    ghost predicate OthersUntouched(s: Disk<N, F>) {
      forall b :: b in boot && !w.json(b) ==> IsAt(s, b, b)
    }

    lemma SweepSpares(s: Disk<N, F>, keys: seq<K>, ws: seq<Winner<N, K, F>>)
      requires Laws(w) && Roster(s, keys, ws) && Sound(boot, s) && OthersUntouched(s)
      ensures Sound(boot, Moved(s, fails, ws)) && OthersUntouched(Moved(s, fails, ws))
    {
      RosterBound(s, keys, ws);
      MovedWhere(boot, s, fails, ws);
      assert forall b :: b in Paths(ws) ==> w.json(b);
    }

    lemma SteadyAt(n: nat)
      requires Steady() && n < |trace|
      ensures SameSelection(w, boot, trace[n])
    {
      assert trace[n] in trace;
    }

    /**
     Loads the newest readable copy of every collector and brings it to its canonical name.
     `finals` says where each loaded file ended.
     */
    method LoadAll() returns (collectors: seq<Loaded<K, F>>, finals: seq<N>)
      requires Started()
      modifies this
      // Every file found is still there, once, with its contents.
      ensures Valid() && OthersUntouched(Now())
      // What cannot be read is set aside as corrupt and an older copy as superseded; what could not be moved is left.
      ensures AsideAsTagged(place) && (Clean(fails, attempts) ==> OutOfSight(place))
      ensures IsLoadOf(w, boot, collectors) && FoundAt(Now(), finals, collectors)
      // A process that dies after `n` renames leaves a directory that loads the same, if no attempt before that
      // failed, or if whatever failed left no collector's choice in dispute.
      ensures forall n :: 0 <= n < |trace| && (Clean(fails, n) || AllUndisputed(place)) ==> SameSelection(w, boot, trace[n])
      // A sweep none of whose renames fails puts the directory in order, unless a copy is in another's way.
      ensures Clean(fails, attempts) && NamesApart(w, boot) ==> (Settled(w, files) <==> !StagingBlocked(w, boot))
      // A deadlocked pair is back where it was, so it will be at every boot.
      ensures Clean(fails, attempts) && NamesApart(w, boot) ==> StillDeadlocked(w, boot, files)
      // Of a directory in order nothing is touched.
      ensures Settled(w, boot) ==> attempts == old(attempts) && files == boot
    {
      hide Laws, Sound, Distinct, Bound, Home, Roster, StagedAs, PlacedAs, Placement.Steady, IsAt, FoundAt, IsLoadOf, Settled,
        NamesApart, StagingBlocked, StillDeadlocked, AllUndisputed, AsideAsTagged, OutOfSight, Clean, OthersUntouched, Tame, Hopeless, NoRivals;
      ghost var keys, start := [], Now();
      var ws;
      ws, keys := Gather();
      ghost var s := Now();
      RosterBound(s, keys, ws);
      var staged := Stage(ws);
      StageWhere(boot, s, fails, ws, |ws|);
      finals := Place(ws, staged);
      assert Now() == Moved(s, fails, ws);
      collectors := LoadedOf(ws);
      RosterLoads(s, keys, ws);
      SweepSpares(s, keys, ws);
      SweepFinds(s, Now(), keys, ws, finals);
      CleanMoves(boot, s, fails, ws);
      MovedWhere(boot, s, fails, ws);
      SweepAside(s, keys, ws, Now());
      forall n | 0 <= n < |trace| && (Clean(fails, n) || AllUndisputed(place))
        ensures SameSelection(w, boot, trace[n])
      {
        if AllUndisputed(place) {
          UndisputedBefore(s, keys, ws, Now());
          SweepSteady(s, keys, ws);
          SteadyAt(n);
        } else {
          SweepCrashes(s, keys, ws, n);
        }
      }
      if Clean(fails, attempts) && NamesApart(w, boot) {
        SweepConverges(s, keys, ws);
        SweepDeadlock(s, keys, ws);
      }
      if Settled(w, boot) {
        SettledIsTidy(s, keys, ws);
        SweepIdle(s, keys, ws);
      }
    }
  }
}
